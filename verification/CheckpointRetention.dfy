/** The cleanup of checkpoint threads: the periodic sweep, and the deletion that a control command asks for. */
module CheckpointRetention {
  import opened Wrappers

  type ThreadId = string
  type Time = int

  const AGENT_CHAT_THREAD_PREFIX: string := "chat:"

  /** A listed checkpoint. Its thread id or its time may be missing or unreadable. */
  datatype Checkpoint = Checkpoint(threadId: Option<ThreadId>, accessedAt: Option<Time>)

  datatype ThreadAccess = ThreadAccess(threadId: ThreadId, lastAccessedAt: Time)

  datatype SweepResult = SweepResult(scannedThreads: nat, retainedThreads: nat, deletedThreads: nat, failedThreads: nat)

  predicate StartsWith(text: string, prefix: string) {
    |prefix| <= |text| && text[..|prefix|] == prefix
  }

  /** When the checkpoint says that the thread was accessed, if it is one of the thread's. */
  function AccessOf(checkpoint: Checkpoint, prefix: string, threadId: ThreadId): Option<Time> {
    if checkpoint.threadId == Some(threadId) && threadId != "" && StartsWith(threadId, prefix)
    then checkpoint.accessedAt else None
  }

  function Later(a: Option<Time>, b: Option<Time>): Option<Time> {
    if a.None? then b else if b.None? || b.value <= a.value then a else b
  }

  /** The latest access of a thread that the checkpoints tell of. */
  function LatestAccess(checkpoints: seq<Checkpoint>, prefix: string, threadId: ThreadId): Option<Time> {
    if checkpoints == [] then None
    else
      var n := |checkpoints| - 1;
      Later(LatestAccess(checkpoints[..n], prefix, threadId), AccessOf(checkpoints[n], prefix, threadId))
  }

  /** It is an access, and there is no later one. */
  lemma {:induction false} LatestIsLatest(checkpoints: seq<Checkpoint>, prefix: string, threadId: ThreadId)
    ensures var latest := LatestAccess(checkpoints, prefix, threadId);
            && (latest.Some? ==>
                  exists i :: 0 <= i < |checkpoints| && AccessOf(checkpoints[i], prefix, threadId) == latest)
            && (forall i | 0 <= i < |checkpoints| && AccessOf(checkpoints[i], prefix, threadId).Some? ::
                  latest.Some? && AccessOf(checkpoints[i], prefix, threadId).value <= latest.value)
  {
    hide AccessOf;
    if checkpoints != [] {
      var n := |checkpoints| - 1;
      LatestIsLatest(checkpoints[..n], prefix, threadId);
      var before := LatestAccess(checkpoints[..n], prefix, threadId);
      var latest := LatestAccess(checkpoints, prefix, threadId);
      if before.Some? {
        var i :| 0 <= i < n && AccessOf(checkpoints[..n][i], prefix, threadId) == before;
        assert AccessOf(checkpoints[i], prefix, threadId) == before;
      }
      assert latest == before || latest == AccessOf(checkpoints[n], prefix, threadId);
    }
  }

  /** The list holds each thread with an access once, with its latest one. */
  ghost predicate IsAccessList(checkpoints: seq<Checkpoint>, prefix: string, threads: seq<ThreadAccess>) {
    && (forall i, j | 0 <= i < j < |threads| :: threads[i].threadId != threads[j].threadId)
    && (forall i | 0 <= i < |threads| ::
          LatestAccess(checkpoints, prefix, threads[i].threadId) == Some(threads[i].lastAccessedAt))
    && (forall threadId | LatestAccess(checkpoints, prefix, threadId).Some? :: Lists(threads, threadId))
  }

  predicate Lists(threads: seq<ThreadAccess>, threadId: ThreadId) {
    exists i :: 0 <= i < |threads| && threads[i].threadId == threadId
  }

  method ListLatestCheckpointThreadAccess(checkpoints: seq<Checkpoint>, prefix: string)
    returns (threads: seq<ThreadAccess>)
    ensures IsAccessList(checkpoints, prefix, threads)
  {
    threads := [];
    for k := 0 to |checkpoints|
      invariant IsAccessList(checkpoints[..k], prefix, threads)
    {
      hide IsAccessList, AccessOf, LatestAccess;
      var checkpoint := checkpoints[k];
      if checkpoint.threadId.None? || checkpoint.threadId.value == "" || !StartsWith(checkpoint.threadId.value, prefix)
         || checkpoint.accessedAt.None? {
        NothingTold(checkpoints, k, prefix, threads);
        continue;
      }
      var threadId, accessedAt := checkpoint.threadId.value, checkpoint.accessedAt.value;
      var index := FindThread(threads, threadId);
      AccessTold(checkpoints, k, prefix, threads, index);
      if index.None? {
        threads := threads + [ThreadAccess(threadId, accessedAt)];
      } else if accessedAt > threads[index.value].lastAccessedAt {
        threads := threads[index.value := ThreadAccess(threadId, accessedAt)];
      }
    }
    assert checkpoints[..|checkpoints|] == checkpoints;
  }

  /** The map lookup: the place of the thread's entry. */
  method FindThread(threads: seq<ThreadAccess>, threadId: ThreadId) returns (index: Option<nat>)
    ensures index.Some? ==> index.value < |threads| && threads[index.value].threadId == threadId
    ensures index.None? ==> forall i | 0 <= i < |threads| :: threads[i].threadId != threadId
  {
    for i := 0 to |threads|
      invariant forall j | 0 <= j < i :: threads[j].threadId != threadId
    {
      if threads[i].threadId == threadId {
        return Some(i);
      }
    }
    return None;
  }

  lemma LatestNext(checkpoints: seq<Checkpoint>, k: nat, prefix: string, threadId: ThreadId)
    requires k < |checkpoints|
    ensures LatestAccess(checkpoints[..k + 1], prefix, threadId) ==
            Later(LatestAccess(checkpoints[..k], prefix, threadId), AccessOf(checkpoints[k], prefix, threadId))
  {
    assert checkpoints[..k + 1][..k] == checkpoints[..k];
  }

  lemma NothingTold(checkpoints: seq<Checkpoint>, k: nat, prefix: string, threads: seq<ThreadAccess>)
    requires k < |checkpoints| && IsAccessList(checkpoints[..k], prefix, threads)
    requires forall threadId :: AccessOf(checkpoints[k], prefix, threadId) == None
    ensures IsAccessList(checkpoints[..k + 1], prefix, threads)
  {
    hide AccessOf, LatestAccess;
    var shorter, longer := checkpoints[..k], checkpoints[..k + 1];
    forall threadId
      ensures LatestAccess(longer, prefix, threadId) == LatestAccess(shorter, prefix, threadId)
    {
      LatestNext(checkpoints, k, prefix, threadId);
    }
  }

  lemma AccessTold(checkpoints: seq<Checkpoint>, k: nat, prefix: string, threads: seq<ThreadAccess>, index: Option<nat>)
    requires k < |checkpoints| && IsAccessList(checkpoints[..k], prefix, threads)
    requires checkpoints[k].threadId.Some? && checkpoints[k].accessedAt.Some?
    requires AccessOf(checkpoints[k], prefix, checkpoints[k].threadId.value) == checkpoints[k].accessedAt
    requires var threadId := checkpoints[k].threadId.value;
             && (index.Some? ==> index.value < |threads| && threads[index.value].threadId == threadId)
             && (index.None? ==> forall i | 0 <= i < |threads| :: threads[i].threadId != threadId)
    ensures var own := ThreadAccess(checkpoints[k].threadId.value, checkpoints[k].accessedAt.value);
            IsAccessList(checkpoints[..k + 1], prefix,
                         if index.None? then threads + [own]
                         else if own.lastAccessedAt > threads[index.value].lastAccessedAt then
                            threads[index.value := own]
                         else threads)
  {
    hide LatestAccess;
    var own := ThreadAccess(checkpoints[k].threadId.value, checkpoints[k].accessedAt.value);
    var threads' := if index.None? then threads + [own]
                    else if own.lastAccessedAt > threads[index.value].lastAccessedAt then
                            threads[index.value := own]
                    else threads;
    var shorter, longer := checkpoints[..k], checkpoints[..k + 1];
    forall threadId
      ensures LatestAccess(longer, prefix, threadId) ==
              if threadId == own.threadId then Later(LatestAccess(shorter, prefix, threadId), Some(own.lastAccessedAt))
              else LatestAccess(shorter, prefix, threadId)
    {
      LatestNext(checkpoints, k, prefix, threadId);
    }
    assert forall i | 0 <= i < |threads| :: threads'[i].threadId == threads[i].threadId;
    forall threadId | LatestAccess(longer, prefix, threadId).Some?
      ensures Lists(threads', threadId)
    {
      if threadId == own.threadId {
        var i := if index.None? then |threads| else index.value;
        assert threads'[i].threadId == threadId;
      } else {
        assert LatestAccess(shorter, prefix, threadId).Some?;
        var i :| 0 <= i < |threads| && threads[i].threadId == threadId;
        assert threads'[i].threadId == threadId;
      }
    }
  }

  // ----- the sweep

  function Expired(threads: seq<ThreadAccess>, cutoffAt: Time): seq<ThreadId> {
    if threads == [] then []
    else
      var last := threads[|threads| - 1];
      Expired(threads[..|threads| - 1], cutoffAt) + if last.lastAccessedAt < cutoffAt then [last.threadId] else []
  }

  /** How many of the threads fail to be deleted. */
  function Failing(tried: seq<ThreadId>, failing: set<ThreadId>): nat {
    if tried == [] then 0
    else Failing(tried[..|tried| - 1], failing) + if tried[|tried| - 1] in failing then 1 else 0
  }

  /** The sweep tries to delete exactly the threads that were not accessed since the cutoff, and each thread scanned is
      counted once. Deleting a thread throws for the threads in failing. */
  method SweepExpiredCheckpointThreads(checkpoints: seq<Checkpoint>, prefix: string, cutoffAt: Time,
                                       failing: set<ThreadId>)
    returns (result: SweepResult, tried: seq<ThreadId>, ghost threads: seq<ThreadAccess>)
    ensures IsAccessList(checkpoints, prefix, threads) && tried == Expired(threads, cutoffAt)
    ensures result.scannedThreads == |threads|
    ensures result.retainedThreads + result.deletedThreads + result.failedThreads == result.scannedThreads
    ensures result.deletedThreads + result.failedThreads == |tried|
    ensures result.failedThreads == Failing(tried, failing)
  {
    hide IsAccessList;
    var scanned := ListLatestCheckpointThreadAccess(checkpoints, prefix);
    threads := scanned;
    tried := [];
    var retainedThreads, deletedThreads, failedThreads := 0, 0, 0;
    for i := 0 to |scanned|
      invariant tried == Expired(scanned[..i], cutoffAt)
      invariant retainedThreads + |tried| == i && deletedThreads + failedThreads == |tried|
      invariant failedThreads == Failing(tried, failing)
    {
      assert scanned[..i + 1][..i] == scanned[..i];
      if scanned[i].lastAccessedAt >= cutoffAt {
        retainedThreads := retainedThreads + 1;
        continue;
      }
      tried := tried + [scanned[i].threadId];
      if scanned[i].threadId in failing {
        failedThreads := failedThreads + 1;
      } else {
        deletedThreads := deletedThreads + 1;
      }
    }
    assert scanned[..|scanned|] == scanned;
    result := SweepResult(|scanned|, retainedThreads, deletedThreads, failedThreads);
  }

  lemma {:induction false} ExpiredHolds(threads: seq<ThreadAccess>, cutoffAt: Time, threadId: ThreadId)
    ensures threadId in Expired(threads, cutoffAt) <==>
            exists i :: 0 <= i < |threads| && threads[i].threadId == threadId && threads[i].lastAccessedAt < cutoffAt
  {
    if threads != [] {
      var n := |threads| - 1;
      ExpiredHolds(threads[..n], cutoffAt, threadId);
      if i :| 0 <= i < n && threads[..n][i].threadId == threadId && threads[..n][i].lastAccessedAt < cutoffAt {
        assert threads[i].threadId == threadId && threads[i].lastAccessedAt < cutoffAt;
      }
      assert forall i | 0 <= i < n :: threads[..n][i] == threads[i];
    }
  }

  /** A thread is tried exactly when some checkpoint tells of an access and all that do tell of one before the cutoff.
      */
  lemma SweptExactly(checkpoints: seq<Checkpoint>, prefix: string, threads: seq<ThreadAccess>, cutoffAt: Time,
                     threadId: ThreadId)
    requires IsAccessList(checkpoints, prefix, threads)
    ensures threadId in Expired(threads, cutoffAt) <==>
              && (exists i :: 0 <= i < |checkpoints| && AccessOf(checkpoints[i], prefix, threadId).Some?)
              && (forall i | 0 <= i < |checkpoints| && AccessOf(checkpoints[i], prefix, threadId).Some? ::
                    AccessOf(checkpoints[i], prefix, threadId).value < cutoffAt)
  {
    hide AccessOf, LatestAccess, Expired;
    ExpiredHolds(threads, cutoffAt, threadId);
    LatestIsLatest(checkpoints, prefix, threadId);
    var latest := LatestAccess(checkpoints, prefix, threadId);
    if latest.Some? {
      var i :| 0 <= i < |threads| && threads[i].threadId == threadId;
      assert threads[i].lastAccessedAt == latest.value;
      var k :| 0 <= k < |checkpoints| && AccessOf(checkpoints[k], prefix, threadId) == latest;
    }
  }

  // ----- the control command

  datatype ControlResult = DeleteCompleted | DeleteFailed

  datatype LockAnswer = Granted | Busy | LockThrew

  /** How the calls that the command makes end. Publishing a failure does not throw. */
  datatype Environment = Environment(lock: LockAnswer, deleteThrows: bool, completedThrows: bool, releaseThrows: bool)

  /** handleControl for a delete command with a cleanup task: what gets published, and whether the thread has been
      deleted. Completion is only published for a deleted thread, and one result is published; but two are when the
      lock cannot be released after completion, and a failure alone says nothing about the thread. */
  method HandleDeleteCommand(threadId: ThreadId, e: Environment) returns (published: seq<ControlResult>, deleted: bool)
    ensures deleted <==> StartsWith(threadId, AGENT_CHAT_THREAD_PREFIX) && e.lock == Granted && !e.deleteThrows
    ensures DeleteCompleted in published <==> deleted && !e.completedThrows
    ensures |published| == if deleted && !e.completedThrows && e.releaseThrows then 2 else 1
    ensures |published| == 2 ==> published == [DeleteCompleted, DeleteFailed]
  {
    published, deleted := [], false;
    if !StartsWith(threadId, AGENT_CHAT_THREAD_PREFIX) || e.lock == Busy {
      return [DeleteFailed], false;
    }
    var failed := e.lock == LockThrew;
    if !failed {
      if e.deleteThrows {
        failed := true;
      } else {
        deleted := true;
        if e.completedThrows {
          failed := true;
        } else {
          published := [DeleteCompleted];
        }
      }
      failed := failed || e.releaseThrows;
    }
    if failed {
      published := published + [DeleteFailed];
    }
  }
}
