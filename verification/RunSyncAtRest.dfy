/** What a client at rest has received: nothing that was logged when a run was last announced is missing, unless the run
    was given up. */
module RunSyncAtRest {
  import opened Wrappers
  import opened RunEventWindow
  import opened RunSync

  ghost predicate IsTrace(run: seq<World>, events: seq<Event>) {
    && |run| == |events| + 1
    && run[0] == InitialWorld()
    && forall i | 0 <= i < |events| :: Enabled(run[i], events[i]) && run[i + 1] == Next(run[i], events[i])
  }

  lemma TraceIsRun(run: seq<World>, events: seq<Event>)
    requires IsTrace(run, events)
    ensures IsRun(run)
  {
    hide Next, Enabled, InitialWorld;
    forall i | 0 <= i < |run| - 1
      ensures Follows(run[i], run[i + 1])
    {
      assert Enabled(run[i], events[i]) && run[i + 1] == Next(run[i], events[i]);
    }
  }

  /** The step ends the client's efforts for the run: its request fails for the fifth time in a row, its update
      belongs to another conversation, or the whole flush is thrown away. */
  ghost predicate GivesUp(w: World, event: Event, runId: RunId) {
    && w.phase.Requested? && event.RepliesArrive? && |event.replies| == |w.phase.requests|
    && exists k ::
         && 0 <= k < |event.replies| && w.phase.requests[k].runId == runId
         && (|| !event.sameConversation
             || (event.replies[k].Rejected? && Attempts(w.client, runId) >= MAX_RETRIES)
             || (event.replies[k].Fulfilled? && !event.replies[k].ofConversation))
  }

  // ----- cursors only move on

  ghost predicate Reached(log: seq<RunEvent>, cursor: Option<int>, n: nat) {
    n <= |log| && (n > 0 ==> cursor.Some? && log[n - 1].id <= cursor.value)
  }

  lemma {:induction false} AdvanceMovesOn(cursors: map<RunId, int>, events: seq<RunEvent>, runId: RunId)
    ensures var cursor, cursor' := Cursor(cursors, runId), Cursor(Advance(cursors, events), runId);
            cursor.Some? ==> cursor'.Some? && cursor.value <= cursor'.value
    decreases |events|
  {
    if events != [] {
      AdvanceMovesOn(cursors, events[..|events| - 1], runId);
    }
  }

  lemma NoHoleReaches(log: seq<RunEvent>, runId: RunId, base: Option<int>, got: seq<RunEvent>, cursor: Option<int>,
                      start: nat, n: nat)
    requires OrderedLog(log, runId) && NoHole(log, base, got, cursor, start) && n <= start + |got|
    ensures Reached(log, cursor, n)
  {
  }

  lemma ReachedIsReceived(log: seq<RunEvent>, runId: RunId, base: Option<int>, got: seq<RunEvent>, cursor: Option<int>,
                          start: nat, n: nat)
    requires OrderedLog(log, runId) && NoHole(log, base, got, cursor, start) && Reached(log, cursor, n)
    ensures n <= start + |got|
  {
  }

  lemma {:induction false} NotingKeepsPending(s: SyncState, requests: seq<Request>, replies: seq<Reply>, runId: RunId)
    requires |requests| == |replies| && runId in s.pendingRunIds
    ensures runId in NoteReplies(s, requests, replies).pendingRunIds
    decreases |requests|
  {
    if requests != [] {
      NotingKeepsPending(s, requests[..|requests| - 1], replies[..|requests| - 1], runId);
    }
  }

  // ----- the promise made by an announcement

  ghost predicate Asked(phase: Phase, runId: RunId, n: nat) {
    && phase.Requested? && n <= |LogOf(phase.logsThen, runId)|
    && exists k :: 0 <= k < |phase.requests| && phase.requests[k].runId == runId
  }

  /** The first n events of the run's log have been received, or the client will still ask for them, or has asked. */
  ghost predicate Promised(w: World, runId: RunId, n: nat) {
    && n <= |LogOf(w.logs, runId)|
    && (|| runId in w.client.pendingRunIds
        || Asked(w.phase, runId, n)
        || Reached(LogOf(w.logs, runId), Cursor(w.client.runEventCursors, runId), n))
  }

  lemma AnnouncedIsPromised(w: World, runId: RunId)
    ensures Promised(Next(w, StateEvent(runId)), runId, |LogOf(w.logs, runId)|)
  {
  }

  lemma LoggedKeepsPromise(w: World, event: RunEvent, runId: RunId, n: nat)
    requires Promised(w, runId, n) && Enabled(w, EventLogged(event))
    ensures Promised(Next(w, EventLogged(event)), runId, n)
  {
    var log, log' := LogOf(w.logs, runId), LogOf(Next(w, EventLogged(event)).logs, runId);
    assert log <= log';
  }

  lemma TimerKeepsPromise(w: World, runId: RunId, n: nat)
    requires Promised(w, runId, n) && Enabled(w, TimerFires) && !w.client.isRunSyncing
    ensures Promised(Next(w, TimerFires), runId, n)
  {
    hide Reached;
    if w.client.hasConversation && runId in w.client.pendingRunIds {
      var k :| 0 <= k < |w.client.pendingRunIds| && w.client.pendingRunIds[k] == runId;
      assert RequestsFor(w.client.runEventCursors, w.client.pendingRunIds)[k].runId == runId;
    }
  }

  lemma SettlingKeepsPending(w: World, replies: seq<Reply>, seen: seq<nat>, runId: RunId)
    requires Enabled(w, RepliesArrive(replies, seen, true)) && runId in w.client.pendingRunIds
    ensures runId in Next(w, RepliesArrive(replies, seen, true)).client.pendingRunIds
  {
    hide NoteReplies, PendFullPages, EventsOf, Merge, Advance, Answers;
    var s0 := NoteReplies(w.client, w.phase.requests, replies);
    NotingKeepsPending(w.client, w.phase.requests, replies, runId);
    PendFullPagesAdds(TakeEvents(s0, EventsOf(replies)).pendingRunIds, w.phase.requests, replies);
  }

  lemma SettlingMovesOn(w: World, replies: seq<Reply>, seen: seq<nat>, runId: RunId, n: nat)
    requires Enabled(w, RepliesArrive(replies, seen, true))
    requires Reached(LogOf(w.logs, runId), Cursor(w.client.runEventCursors, runId), n)
    ensures var w' := Next(w, RepliesArrive(replies, seen, true));
            Reached(LogOf(w'.logs, runId), Cursor(w'.client.runEventCursors, runId), n)
  {
    hide NoteReplies, PendFullPages, EventsOf, Merge, Advance, Answers, Cursor;
    NoteRepliesFrame(w.client, w.phase.requests, replies);
    AdvanceMovesOn(w.client.runEventCursors, EventsOf(replies), runId);
  }

  lemma SettlingAnswers(w: World, replies: seq<Reply>, seen: seq<nat>, k: nat, n: nat)
    requires Inv(w) && Enabled(w, RepliesArrive(replies, seen, true)) && k < |replies|
    requires n <= |LogOf(w.phase.logsThen, w.phase.requests[k].runId)|
    requires !GivesUp(w, RepliesArrive(replies, seen, true), w.phase.requests[k].runId)
    ensures Promised(Next(w, RepliesArrive(replies, seen, true)), w.phase.requests[k].runId, n)
  {
    hide RunInv, RequestsInv, WakeInv, RetryInv, WindowInv, SettleFlush, NoHole, OrderedLog, Page, Reached, OfRun,
         Asked;
    var runId := w.phase.requests[k].runId;
    assert Answers(w.phase.logsThen, w.logs, w.phase.requests[k], replies[k], seen[k]);
    PendingAfterFlush(w, replies, seen, k);
    if Matching(replies[k]) {
      FlushContinues(w, replies, seen, k);
      LogIsOrdered(w, runId);
      var log, s' := LogOf(w.logs, runId), SettleFlush(w.client, w.phase.requests, replies);
      var start: nat :|
        && NoHole(log, Cursor(s'.baseCursors, runId), OfRun(s'.received, runId), Cursor(s'.runEventCursors, runId),
                  start)
        && (Matching(replies[k]) ==> start + |OfRun(s'.received, runId)| >= seen[k] || runId in s'.pendingRunIds);
      if runId !in s'.pendingRunIds {
        NoHoleReaches(log, runId, Cursor(s'.baseCursors, runId), OfRun(s'.received, runId),
                      Cursor(s'.runEventCursors, runId), start, n);
      }
    }
  }

  lemma LogIsOrdered(w: World, runId: RunId)
    requires Inv(w)
    ensures OrderedLog(LogOf(w.logs, runId), runId)
  {
    assert RunInv(w.logs, w.client, runId);
  }

  lemma RepliesKeepPromise(w: World, event: Event, runId: RunId, n: nat)
    requires Inv(w) && Promised(w, runId, n) && Enabled(w, event) && event.RepliesArrive? && !GivesUp(w, event, runId)
    ensures Promised(Next(w, event), runId, n)
  {
    hide Inv, SettleFlush, Reached, Answers;
    if event.sameConversation {
      var RepliesArrive(replies, seen, same) := event;
      if runId in w.client.pendingRunIds {
        SettlingKeepsPending(w, replies, seen, runId);
      } else if Asked(w.phase, runId, n) {
        var k :| 0 <= k < |w.phase.requests| && w.phase.requests[k].runId == runId;
        SettlingAnswers(w, replies, seen, k, n);
      } else {
        SettlingMovesOn(w, replies, seen, runId, n);
      }
    }
  }

  lemma StepKeepsPromise(w: World, event: Event, runId: RunId, n: nat)
    requires Inv(w) && Promised(w, runId, n) && Enabled(w, event)
    requires !event.Refreshed? && !event.Cleared? && !GivesUp(w, event, runId)
    ensures Promised(Next(w, event), runId, n)
  {
    hide RunInv, RequestsInv, RetryInv, WindowInv, GivesUp, Reached, Asked;
    match event
    case EventLogged(e) => LoggedKeepsPromise(w, e, runId, n);
    case TimerFires => TimerKeepsPromise(w, runId, n);
    case RepliesArrive(_, _, _) => RepliesKeepPromise(w, event, runId, n);
    case StateEvent(_) =>
    case FlushEnds => AskedIsRequested(w.phase, runId, n);
  }

  lemma AskedIsRequested(phase: Phase, runId: RunId, n: nat)
    ensures Asked(phase, runId, n) ==> phase.Requested?
  {
  }

  lemma {:induction false} PromiseIsKept(run: seq<World>, events: seq<Event>, i: nat, j: nat, runId: RunId)
    requires IsTrace(run, events) && i < j < |run| && events[i] == StateEvent(runId)
    requires forall k | i < k < j :: !events[k].Refreshed? && !events[k].Cleared? && !GivesUp(run[k], events[k], runId)
    ensures Promised(run[j], runId, |LogOf(run[i].logs, runId)|)
    decreases j
  {
    hide Promised, Next, Enabled, Inv, GivesUp, InitialWorld;
    if j == i + 1 {
      AnnouncedIsPromised(run[i], runId);
    } else {
      PromiseIsKept(run, events, i, j - 1, runId);
      TraceIsRun(run, events);
      InvHolds(run, j - 1);
      StepKeepsPromise(run[j - 1], events[j - 1], runId, |LogOf(run[i].logs, runId)|);
    }
  }

  lemma {:induction false} LogsGrow(run: seq<World>, events: seq<Event>, i: nat, j: nat, runId: RunId)
    requires IsTrace(run, events) && i <= j < |run|
    ensures LogOf(run[i].logs, runId) <= LogOf(run[j].logs, runId)
    decreases j
  {
    hide InitialWorld, BeginFlush, SettleFlush, Answers;
    if i < j {
      LogsGrow(run, events, i, j - 1, runId);
      assert Enabled(run[j - 1], events[j - 1]) && run[j] == Next(run[j - 1], events[j - 1]);
    }
  }

  /** Once the client is idle and the run is not pending, all that the server had logged when the run was announced
      has been received, and the cursor stands behind it; unless the run was given up or the conversation was fetched
      anew. */
  lemma AtRestCaughtUp(run: seq<World>, events: seq<Event>, i: nat, j: nat, runId: RunId)
    requires IsTrace(run, events) && i < j < |run| && events[i] == StateEvent(runId)
    requires forall k | i < k < j :: !events[k].Refreshed? && !events[k].Cleared? && !GivesUp(run[k], events[k], runId)
    requires run[j].phase.Idle? && runId !in run[j].client.pendingRunIds
    ensures LogOf(run[i].logs, runId) <= LogOf(run[j].logs, runId)
    ensures var log, s := LogOf(run[j].logs, runId), run[j].client;
            exists start: nat ::
              && NoHole(log, Cursor(s.baseCursors, runId), OfRun(s.received, runId), Cursor(s.runEventCursors, runId),
                        start)
              && |LogOf(run[i].logs, runId)| <= start + |OfRun(s.received, runId)|
  {
    hide IsTrace, NoHole, OrderedLog, Reached, OfRun, GivesUp;
    LogsGrow(run, events, i, j, runId);
    PromiseIsKept(run, events, i, j, runId);
    TraceIsRun(run, events);
    NothingSkippedOrRepeated(run, j, runId);
    var log, s := LogOf(run[j].logs, runId), run[j].client;
    var start: nat :| NoHole(log, Cursor(s.baseCursors, runId), OfRun(s.received, runId),
                             Cursor(s.runEventCursors, runId), start);
    ReachedIsReceived(log, runId, Cursor(s.baseCursors, runId), OfRun(s.received, runId),
                      Cursor(s.runEventCursors, runId), start, |LogOf(run[i].logs, runId)|);
  }

  // ----- a run that is given up

  /** The client neither has nor plans a request for the run, whose cursor stands at a given place. */
  ghost predicate LeftAt(w: World, runId: RunId, cursor: Option<int>) {
    && runId !in w.client.pendingRunIds
    && (w.phase.Requested? ==> forall k | 0 <= k < |w.phase.requests| :: w.phase.requests[k].runId != runId)
    && Cursor(w.client.runEventCursors, runId) == cursor
  }

  lemma GivingUpLeaves(w: World, event: Event, runId: RunId)
    requires Inv(w) && Enabled(w, event) && GivesUp(w, event, runId) && runId !in w.client.pendingRunIds
    ensures LeftAt(Next(w, event), runId, Cursor(w.client.runEventCursors, runId))
  {
    hide RunInv, WakeInv, RetryInv, WindowInv, Answers, NoteReplies, PendFullPages, EventsOf, Merge, Advance, OfRun,
         Cursor;
    var RepliesArrive(replies, seen, same) := event;
    if same {
      var k :| && 0 <= k < |replies| && w.phase.requests[k].runId == runId
               && ((replies[k].Rejected? && Attempts(w.client, runId) >= MAX_RETRIES)
                   || (replies[k].Fulfilled? && !replies[k].ofConversation));
      OneRequestPerRun(w, k);
      PendingAfterFlush(w, replies, seen, k);
      RepliesOfTheirRuns(w, replies, seen);
      EventsOfThis(w.phase.requests, replies, k);
      NoteRepliesFrame(w.client, w.phase.requests, replies);
      TakeNothing(NoteReplies(w.client, w.phase.requests, replies), EventsOf(replies), runId);
    }
  }

  lemma OneRequestPerRun(w: World, k: nat)
    requires Inv(w) && w.phase.Requested? && k < |w.phase.requests|
    ensures forall m | 0 <= m < |w.phase.requests| && w.phase.requests[m].runId == w.phase.requests[k].runId :: m == k
  {
  }

  lemma SettlingLeaves(w: World, replies: seq<Reply>, seen: seq<nat>, runId: RunId, cursor: Option<int>)
    requires Inv(w) && Enabled(w, RepliesArrive(replies, seen, true)) && LeftAt(w, runId, cursor)
    ensures LeftAt(Next(w, RepliesArrive(replies, seen, true)), runId, cursor)
  {
    hide RunInv, WakeInv, RetryInv, WindowInv, Answers, NoteReplies, PendFullPages, EventsOf, Merge, Advance, OfRun,
         Cursor;
    var s0 := NoteReplies(w.client, w.phase.requests, replies);
    RepliesOfTheirRuns(w, replies, seen);
    EventsOfOther(w.phase.requests, replies, runId);
    NoteRepliesFrame(w.client, w.phase.requests, replies);
    NoteRepliesOther(w.client, w.phase.requests, replies, runId);
    TakeNothing(s0, EventsOf(replies), runId);
    PendFullPagesAdds(TakeEvents(s0, EventsOf(replies)).pendingRunIds, w.phase.requests, replies);
  }

  lemma StepLeaves(w: World, event: Event, runId: RunId, cursor: Option<int>)
    requires Inv(w) && Enabled(w, event) && LeftAt(w, runId, cursor)
    requires !event.Refreshed? && !event.Cleared? && event != StateEvent(runId)
    ensures LeftAt(Next(w, event), runId, cursor)
  {
    hide RunInv, RequestsInv, WakeInv, RetryInv, WindowInv, SettleFlush, Answers, Cursor;
    match event
    case RepliesArrive(replies, seen, same) =>
      if same {
        SettlingLeaves(w, replies, seen, runId, cursor);
      }
    case _ =>
  }

  /** A run that was given up is left where it was until it is announced again or the conversation is fetched anew: it
      is not asked for, and its cursor does not move, however much the server logs. */
  lemma {:induction false} GivenUpIsLeft(run: seq<World>, events: seq<Event>, k: nat, j: nat, runId: RunId)
    requires IsTrace(run, events) && k < j < |run| && GivesUp(run[k], events[k], runId)
    requires runId !in run[k].client.pendingRunIds
    requires forall m | k < m < j :: !events[m].Refreshed? && !events[m].Cleared? && events[m] != StateEvent(runId)
    ensures LeftAt(run[j], runId, Cursor(run[k].client.runEventCursors, runId))
    decreases j
  {
    hide LeftAt, Next, Enabled, Inv, GivesUp, InitialWorld;
    TraceIsRun(run, events);
    InvHolds(run, j - 1);
    if j == k + 1 {
      GivingUpLeaves(run[k], events[k], runId);
    } else {
      GivenUpIsLeft(run, events, k, j - 1, runId);
      StepLeaves(run[j - 1], events[j - 1], runId, Cursor(run[k].client.runEventCursors, runId));
    }
  }

  ghost predicate Reachable(w: World) {
    exists run, events | IsTrace(run, events) :: run[|events|] == w
  }

  lemma ReachableNext(w: World, event: Event)
    requires Reachable(w) && Enabled(w, event)
    ensures Reachable(Next(w, event))
  {
    hide Next, Enabled, InitialWorld;
    var run, events :| IsTrace(run, events) && run[|events|] == w;
    var run', events' := run + [Next(w, event)], events + [event];
    forall i | 0 <= i < |events'|
      ensures Enabled(run'[i], events'[i]) && run'[i + 1] == Next(run'[i], events'[i])
    {
      if i < |events| {
        assert run'[i] == run[i] && run'[i + 1] == run[i + 1] && events'[i] == events[i];
      }
    }
    assert IsTrace(run', events') && run'[|events'|] == Next(w, event);
  }

  /** A client with one run, whose single event has been announced, after some failed requests for it. */
  function AfterFailures(failures: nat): World {
    World(map[0 := [RunEvent(1, 0, 0)]],
          SyncState(map[], [0], if failures == 0 then map[] else map[0 := failures],
                    [], true, false, true, map[], [], []),
          Idle)
  }

  lemma AnnouncedEvent()
    ensures Reachable(AfterFailures(0))
  {
    var event := RunEvent(1, 0, 0);
    var w0 := InitialWorld();
    var nothing: seq<Event> := [];
    assert IsTrace([w0], nothing) && [w0][|nothing|] == w0;
    ReachableNext(w0, Refreshed([]));
    var w1 := Next(w0, Refreshed([]));
    ReachableNext(w1, EventLogged(event));
    var w2 := Next(w1, EventLogged(event));
    assert LogOf(w1.logs, 0) + [event] == [event];
    assert w2.logs == map[0 := [event]];
    ReachableNext(w2, StateEvent(0));
  }

  /** The world after one more failed flush. */
  function AfterFailedFlush(w: World): World {
    var attempt := 1 + Attempts(w.client, 0);
    w.(client := w.client.(pendingRunIds := if attempt <= MAX_RETRIES then [0] else [],
                           retryAttempts := if attempt <= MAX_RETRIES then map[0 := attempt] else map[],
                           timerSet := attempt <= MAX_RETRIES))
  }

  lemma OneFailureNoted(s: SyncState)
    ensures NoteReplies(s, [Request(0, None)], [Rejected]) == NoteReply(s, 0, Rejected)
    ensures EventsOf([Rejected]) == []
    ensures PendFullPages(s.pendingRunIds, [Request(0, None)], [Rejected]) == s.pendingRunIds
  {
    hide NoteReply;
    assert [Request(0, None)][..0] == [] && [Rejected][..0] == [];
  }

  lemma FailureIsNoted(failures: nat)
    requires failures <= MAX_RETRIES
    ensures var s := AfterFailures(failures).client.(pendingRunIds := [], timerSet := false, isRunSyncing := true);
            var s' := AfterFailedFlush(AfterFailures(failures)).client.(timerSet := false, isRunSyncing := true);
            NoteReply(s, 0, Rejected) == s'
  {
    var attempts := AfterFailures(failures).client.retryAttempts;
    assert attempts[0 := failures + 1] == map[0 := failures + 1] && attempts - {0} == map[];
  }

  lemma FailedFlush(failures: nat)
    requires failures <= MAX_RETRIES && Reachable(AfterFailures(failures))
    ensures Reachable(AfterFailedFlush(AfterFailures(failures)))
  {
    hide Reachable, NoteReplies, NoteReply, PendFullPages, EventsOf;
    var w := AfterFailures(failures);
    ReachableNext(w, TimerFires);
    var w1 := Next(w, TimerFires);
    assert w1.phase.requests == [Request(0, None)];
    OneFailureNoted(w1.client);
    FailureIsNoted(failures);
    var noted := NoteReply(w1.client, 0, Rejected);
    OneFailureNoted(noted);
    var replies := RepliesArrive([Rejected], [1], true);
    ReachableNext(w1, replies);
    var w2 := Next(w1, replies);
    assert w2.client == noted;
    ReachableNext(w2, FlushEnds);
    assert Next(w2, FlushEnds) == AfterFailedFlush(w);
  }

  /** A run whose requests fail five times is never asked for again by itself: the client is idle, nothing is pending,
      and the announced event has not been received. */
  lemma GivenUpRunIsBehind()
    ensures var w := AfterFailedFlush(AfterFailures(MAX_RETRIES));
            && Reachable(w) && w.phase.Idle? && w.client.pendingRunIds == [] && !w.client.timerSet
            && LogOf(w.logs, 0) == [RunEvent(1, 0, 0)] && w.client.received == [] && w.client.runEvents == []
  {
    hide Reachable;
    AnnouncedEvent();
    for failures := 0 to MAX_RETRIES
      invariant Reachable(AfterFailures(failures))
    {
      FailedFlush(failures);
    }
    FailedFlush(MAX_RETRIES);
  }
}
