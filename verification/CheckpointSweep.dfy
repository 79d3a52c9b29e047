/** The periodic sweep beside the thread lock: it lists the expired threads and then deletes them one by one, without
    taking their locks. Its own lock only keeps other sweeps away. */
module CheckpointSweep {
  import opened Wrappers
  import opened CheckpointRetention
  import RuntimeLock

  /** A sweep between its listing and its last deletion: what it listed, and the threads it has still to delete. */
  datatype Sweep = Sweep(listed: seq<Checkpoint>, cutoffAt: Time, threads: seq<ThreadAccess>, todo: seq<ThreadId>)

  /** hits is history: the graph runs whose thread a sweep has deleted while they ran. */
  datatype World = World(
    lock: RuntimeLock.World,
    checkpoints: seq<Checkpoint>,
    sweep: Option<Sweep>,
    hits: set<RuntimeLock.Token>
  )

  datatype Step =
    | LockStep(step: RuntimeLock.Step)
    | SaveCheckpoint(token: RuntimeLock.Token, accessedAt: Time)   // a graph run writes a checkpoint of its thread
    | ListThreads(cutoffAt: Time, threads: seq<ThreadAccess>)
    | DeleteNext(fails: bool)                                      // deleteThread of the next expired thread
    | EndSweep

  function GraphRunsOf(lock: RuntimeLock.World, threadId: ThreadId): set<RuntimeLock.Token> {
    set token | token in lock.tasks
      && lock.tasks[token] == RuntimeLock.Task(threadId, RuntimeLock.GraphRun, RuntimeLock.Running)
  }

  function WithoutThread(checkpoints: seq<Checkpoint>, threadId: ThreadId): seq<Checkpoint> {
    if checkpoints == [] then []
    else
      var n := |checkpoints| - 1;
      WithoutThread(checkpoints[..n], threadId)
      + if checkpoints[n].threadId == Some(threadId) then [] else [checkpoints[n]]
  }

  ghost predicate Enabled(w: World, step: Step) {
    match step
    case LockStep(s) => RuntimeLock.Enabled(w.lock, s)
    case SaveCheckpoint(token, _) => token in w.lock.tasks && w.lock.tasks[token].purpose == RuntimeLock.GraphRun
                                     && w.lock.tasks[token].phase == RuntimeLock.Running
    case ListThreads(_, threads) => w.sweep.None? && IsAccessList(w.checkpoints, AGENT_CHAT_THREAD_PREFIX, threads)
    case DeleteNext(_) => w.sweep.Some? && w.sweep.value.todo != []
    case EndSweep => w.sweep.Some? && w.sweep.value.todo == []
  }

  ghost function Next(w: World, step: Step): World
    requires Enabled(w, step)
  {
    match step
    case LockStep(s) => w.(lock := RuntimeLock.Next(w.lock, s))
    case SaveCheckpoint(token, time) =>
      w.(checkpoints := w.checkpoints + [Checkpoint(Some(w.lock.tasks[token].key), Some(time))])
    case ListThreads(cutoffAt, threads) =>
      w.(sweep := Some(Sweep(w.checkpoints, cutoffAt, threads, Expired(threads, cutoffAt))))
    case DeleteNext(fails) =>
      var threadId := w.sweep.value.todo[0];
      var swept := w.(sweep := Some(w.sweep.value.(todo := w.sweep.value.todo[1..])));
      if fails then swept
      else swept.(checkpoints := WithoutThread(w.checkpoints, threadId), hits := w.hits + GraphRunsOf(w.lock, threadId))
    case EndSweep => w.(sweep := None)
  }

  ghost predicate Initial(w: World) {
    RuntimeLock.Initial(w.lock) && w.sweep.None? && w.hits == {}
  }

  ghost predicate Follows(w: World, w': World) {
    exists step :: Enabled(w, step) && w' == Next(w, step)
  }

  ghost predicate IsRun(run: seq<World>) {
    run != [] && Initial(run[0]) && forall i | 0 <= i < |run| - 1 :: Follows(run[i], run[i + 1])
  }

  // ----- what a sweep is about to delete

  /** The threads still to delete are the last of the expired ones. */
  ghost predicate SweepInv(w: World) {
    w.sweep.Some? ==>
      var sweep := w.sweep.value;
      var expired := Expired(sweep.threads, sweep.cutoffAt);
      && IsAccessList(sweep.listed, AGENT_CHAT_THREAD_PREFIX, sweep.threads)
      && |sweep.todo| <= |expired| && sweep.todo == expired[|expired| - |sweep.todo|..]
  }

  lemma SweepInvStep(w: World, step: Step)
    requires SweepInv(w) && Enabled(w, step)
    ensures SweepInv(Next(w, step))
  {
    hide IsAccessList, Expired, RuntimeLock.Next;
  }

  lemma {:induction false} SweepInvHolds(run: seq<World>, i: nat)
    requires IsRun(run) && i < |run|
    ensures SweepInv(run[i])
  {
    hide SweepInv, Next, Enabled;
    if i == 0 {
      NoSweepYet(run[0]);
    } else {
      SweepInvHolds(run, i - 1);
      assert Follows(run[i - 1], run[i - 1 + 1]);
      var step :| Enabled(run[i - 1], step) && run[i] == Next(run[i - 1], step);
      SweepInvStep(run[i - 1], step);
    }
  }

  lemma NoSweepYet(w: World)
    requires Initial(w)
    ensures SweepInv(w)
  {
  }

  /** What the sweep has tried to delete so far. */
  function Tried(sweep: Sweep): seq<ThreadId>
    requires |sweep.todo| <= |Expired(sweep.threads, sweep.cutoffAt)|
  {
    var expired := Expired(sweep.threads, sweep.cutoffAt);
    expired[..|expired| - |sweep.todo|]
  }

  /** A sweep goes on to delete a thread, whatever leases and graph runs there are, exactly if it has not tried it yet
      and the checkpoints that it listed tell of some access of the thread, and of none at or after the cutoff. */
  lemma SweepDeletesExactly(run: seq<World>, i: nat, threadId: ThreadId)
    requires IsRun(run) && i < |run| && run[i].sweep.Some?
    ensures var sweep := run[i].sweep.value;
            && |sweep.todo| <= |Expired(sweep.threads, sweep.cutoffAt)|
            && (threadId in sweep.todo <==>
                  && threadId !in Tried(sweep)
                  && (exists k ::
                        0 <= k < |sweep.listed| && AccessOf(sweep.listed[k], AGENT_CHAT_THREAD_PREFIX, threadId).Some?)
                  && (forall k | 0 <= k < |sweep.listed|
                            && AccessOf(sweep.listed[k], AGENT_CHAT_THREAD_PREFIX, threadId).Some? ::
                        AccessOf(sweep.listed[k], AGENT_CHAT_THREAD_PREFIX, threadId).value < sweep.cutoffAt))
  {
    hide AccessOf, IsAccessList, Expired;
    SweepInvHolds(run, i);
    var sweep := run[i].sweep.value;
    var expired := Expired(sweep.threads, sweep.cutoffAt);
    SweptExactly(sweep.listed, AGENT_CHAT_THREAD_PREFIX, sweep.threads, sweep.cutoffAt, threadId);
    ExpiredAreDistinct(sweep.listed, AGENT_CHAT_THREAD_PREFIX, sweep.threads, sweep.cutoffAt);
    assert expired == Tried(sweep) + sweep.todo;
  }

  lemma ExpiredAreDistinct(checkpoints: seq<Checkpoint>, prefix: string, threads: seq<ThreadAccess>, cutoffAt: Time)
    requires IsAccessList(checkpoints, prefix, threads)
    ensures forall i, j | 0 <= i < j < |Expired(threads, cutoffAt)| ::
              Expired(threads, cutoffAt)[i] != Expired(threads, cutoffAt)[j]
  {
    DistinctExpired(threads, cutoffAt);
  }

  lemma {:induction false} DistinctExpired(threads: seq<ThreadAccess>, cutoffAt: Time)
    requires forall i, j | 0 <= i < j < |threads| :: threads[i].threadId != threads[j].threadId
    ensures forall i, j | 0 <= i < j < |Expired(threads, cutoffAt)| ::
              Expired(threads, cutoffAt)[i] != Expired(threads, cutoffAt)[j]
    decreases |threads|
  {
    if threads != [] {
      var n := |threads| - 1;
      DistinctExpired(threads[..n], cutoffAt);
      ExpiredHolds(threads[..n], cutoffAt, threads[n].threadId);
    }
  }

  /** The deletion does not look at the lock: it hits every graph run of the thread that is running, and leaves every
      lease and every task as it is. */
  lemma DeletionIgnoresTheLock(w: World, fails: bool, lock: RuntimeLock.World)
    requires Enabled(w, DeleteNext(fails))
    ensures Enabled(w.(lock := lock), DeleteNext(fails))
    ensures Next(w.(lock := lock), DeleteNext(fails)).lock == lock
    ensures Next(w.(lock := lock), DeleteNext(false)).hits == w.hits + GraphRunsOf(lock, w.sweep.value.todo[0])
  {
  }

  lemma {:induction false} WithoutThreadKeeps(checkpoints: seq<Checkpoint>, threadId: ThreadId, c: Checkpoint)
    ensures multiset(WithoutThread(checkpoints, threadId))[c] ==
            if c.threadId == Some(threadId) then 0 else multiset(checkpoints)[c]
    decreases |checkpoints|
  {
    if checkpoints != [] {
      var n := |checkpoints| - 1;
      assert checkpoints == checkpoints[..n] + [checkpoints[n]];
      WithoutThreadKeeps(checkpoints[..n], threadId, c);
    }
  }

  /** A deletion takes away all checkpoints of its thread and no other, and a failed one takes away none; either way the
      thread is not tried again. */
  lemma DeletionRemovesExactly(w: World, fails: bool, c: Checkpoint)
    requires Enabled(w, DeleteNext(fails))
    ensures var w', threadId := Next(w, DeleteNext(fails)), w.sweep.value.todo[0];
            && multiset(w'.checkpoints)[c] ==
               (if !fails && c.threadId == Some(threadId) then 0 else multiset(w.checkpoints)[c])
            && w'.sweep.Some? && w.sweep.value.todo == [threadId] + w'.sweep.value.todo
  {
    WithoutThreadKeeps(w.checkpoints, w.sweep.value.todo[0], c);
  }

  /** A run in which a sweep deletes the thread of a running graph, though no lease has run out: the thread is resumed
      between the listing and the deletion. */
  lemma SweepHitsRunningGraph(lock: RuntimeLock.World) returns (run: seq<World>)
    requires RuntimeLock.Initial(lock)
    ensures IsRun(run)
    ensures var last := run[|run| - 1];
            && last.lock.expired == {}
            && last.hits == {lock.nextToken} && last.lock.nextToken == lock.nextToken + 1
            && last.lock.tasks ==
               map[lock.nextToken := RuntimeLock.Task("chat:1", RuntimeLock.GraphRun, RuntimeLock.Running)]
            && last.lock.leases == map["chat:1" := lock.nextToken]
            && last.checkpoints == []
  {
    var checkpoint, access := Checkpoint(Some("chat:1"), Some(0)), ThreadAccess("chat:1", 0);
    var w0 := World(lock, [checkpoint], None, {});
    var w1 := w0.(sweep := Some(Sweep([checkpoint], 10, [access], ["chat:1"])));
    OneOldThread(w0, checkpoint, access);
    assert Follows(w0, w1);
    var acquire := LockStep(RuntimeLock.Acquire("chat:1", RuntimeLock.GraphRun));
    var w2 := Next(w1, acquire);
    assert Follows(w1, w2);
    var w3 := Next(w2, DeleteNext(false));
    assert Follows(w2, w3);
    assert GraphRunsOf(w2.lock, "chat:1") == {lock.nextToken};
    assert WithoutThread([checkpoint], "chat:1") == WithoutThread([checkpoint][..0], "chat:1") == [];
    run := [w0, w1, w2, w3];
  }

  lemma OneOldThread(w: World, checkpoint: Checkpoint, access: ThreadAccess)
    requires checkpoint == Checkpoint(Some("chat:1"), Some(0)) && access == ThreadAccess("chat:1", 0)
    requires w.checkpoints == [checkpoint] && w.sweep.None?
    ensures Enabled(w, ListThreads(10, [access]))
    ensures Next(w, ListThreads(10, [access])) == w.(sweep := Some(Sweep([checkpoint], 10, [access], ["chat:1"])))
  {
    assert [checkpoint][..0] == [] && [access][..0] == [];
    forall threadId: ThreadId
      ensures LatestAccess([checkpoint], AGENT_CHAT_THREAD_PREFIX, threadId) ==
              if threadId == "chat:1" then Some(0) else None
    {
      assert "chat:1"[..5] == "chat:";
      assert LatestAccess([checkpoint], AGENT_CHAT_THREAD_PREFIX, threadId) ==
             Later(None, AccessOf(checkpoint, AGENT_CHAT_THREAD_PREFIX, threadId));
    }
    assert Expired([access], 10) == Expired([access][..0], 10) + ["chat:1"] == ["chat:1"];
    assert [access][0].threadId == "chat:1";
    assert Lists([access], "chat:1");
    assert IsAccessList([checkpoint], AGENT_CHAT_THREAD_PREFIX, [access]);
  }
}
