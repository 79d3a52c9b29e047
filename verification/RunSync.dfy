/** How the desktop client keeps up with the events of the active conversation's runs.

    The client asks for the events behind its cursor, one page per pending run. The server's log of a run only grows.
    A conversation refresh is one step here: it does not overlap a flush. */
module RunSync {
  import opened Wrappers
  import opened RunEventWindow

  const RUN_EVENT_LIMIT: nat := 1000
  const RUN_EVENT_BATCH_LIMIT: nat := 200
  const MAX_RETRIES: nat := 4

  /** What the client asks the server for. */
  datatype Request = Request(runId: RunId, afterId: Option<int>)

  /** An update holds the run's events, and whether the run belongs to the conversation of the flush. */
  datatype Reply =
    | Rejected
    | Fulfilled(ofConversation: bool, events: seq<RunEvent>)

  /** The variables of useDesktopRunSync. pendingRunIds is in insertion order; the last three fields are history: the
      cursors and the window that the last refresh left, and the events received since. */
  datatype SyncState = SyncState(
    runEventCursors: map<RunId, int>,
    pendingRunIds: seq<RunId>,
    retryAttempts: map<RunId, nat>,
    runEvents: seq<RunEvent>,
    timerSet: bool,
    isRunSyncing: bool,
    hasConversation: bool,
    baseCursors: map<RunId, int>,
    baseEvents: seq<RunEvent>,
    received: seq<RunEvent>
  )

  function Cursor(cursors: map<RunId, int>, runId: RunId): Option<int> {
    if runId in cursors then Some(cursors[runId]) else None
  }

  // ----- the server

  function IdsAfter(log: seq<RunEvent>, id: int): seq<RunEvent> {
    if log == [] then []
    else if log[0].id > id then [log[0]] + IdsAfter(log[1..], id)
    else IdsAfter(log[1..], id)
  }

  /** The answer to listChatEvents: the first events behind the cursor, in the order of their ids. */
  function Page(log: seq<RunEvent>, afterId: Option<int>, limit: nat): seq<RunEvent> {
    var events := if afterId.None? then log else IdsAfter(log, afterId.value);
    if |events| <= limit then events else events[..limit]
  }

  ghost predicate OrderedLog(log: seq<RunEvent>, runId: RunId) {
    && (forall i | 0 <= i < |log| :: log[i].runId == runId && log[i].id >= 1)
    && (forall i, j | 0 <= i < j < |log| :: log[i].id < log[j].id)
  }

  // ----- the client

  function AddPending(pending: seq<RunId>, runId: RunId): seq<RunId> {
    if runId in pending then pending else pending + [runId]
  }

  function Schedule(s: SyncState): SyncState {
    if s.timerSet || s.isRunSyncing then s else s.(timerSet := true)
  }

  function ScheduleIfPending(s: SyncState): SyncState {
    if s.pendingRunIds == [] then s else Schedule(s)
  }

  function RunStateEvent(s: SyncState, runId: RunId): SyncState {
    Schedule(s.(pendingRunIds := AddPending(s.pendingRunIds, runId)))
  }

  function RequestsFor(cursors: map<RunId, int>, runIds: seq<RunId>): (requests: seq<Request>)
    ensures |requests| == |runIds|
  {
    seq(|runIds|, i requires 0 <= i < |runIds| => Request(runIds[i], Cursor(cursors, runIds[i])))
  }

  /** The timer fires. */
  function BeginFlush(s: SyncState): (SyncState, seq<Request>) {
    var s0 := s.(timerSet := false);
    if !s.hasConversation || s.pendingRunIds == [] then (s0, [])
    else (s0.(pendingRunIds := [], isRunSyncing := true), RequestsFor(s.runEventCursors, s.pendingRunIds))
  }

  /** The retry bookkeeping for one reply. */
  function NoteReply(s: SyncState, runId: RunId, reply: Reply): SyncState {
    if reply.Fulfilled? then
      s.(retryAttempts := s.retryAttempts - {runId})
    else
      var attempt := 1 + if runId in s.retryAttempts then s.retryAttempts[runId] else 0;
      if attempt <= MAX_RETRIES then
        s.(retryAttempts := s.retryAttempts[runId := attempt], pendingRunIds := AddPending(s.pendingRunIds, runId))
      else
        s.(retryAttempts := s.retryAttempts - {runId})
  }

  function NoteReplies(s: SyncState, requests: seq<Request>, replies: seq<Reply>): SyncState
    requires |requests| == |replies|
    decreases |requests|
  {
    if requests == [] then s
    else
      var n := |requests| - 1;
      NoteReply(NoteReplies(s, requests[..n], replies[..n]), requests[n].runId, replies[n])
  }

  predicate Matching(reply: Reply) {
    reply.Fulfilled? && reply.ofConversation
  }

  function Taken(reply: Reply): seq<RunEvent> {
    if Matching(reply) then reply.events else []
  }

  /** The events of the matching updates. */
  function EventsOf(replies: seq<Reply>): seq<RunEvent> {
    if replies == [] then []
    else
      var n := |replies| - 1;
      EventsOf(replies[..n]) + Taken(replies[n])
  }

  function AdvanceOne(cursors: map<RunId, int>, event: RunEvent): map<RunId, int> {
    var seen := if event.runId in cursors then cursors[event.runId] else 0;
    cursors[event.runId := if seen <= event.id then event.id else seen]
  }

  /** updateRunEventCursors as a function. */
  function Advance(cursors: map<RunId, int>, events: seq<RunEvent>): map<RunId, int> {
    if events == [] then cursors
    else AdvanceOne(Advance(cursors, events[..|events| - 1]), events[|events| - 1])
  }

  function TakeEvents(s: SyncState, events: seq<RunEvent>): SyncState {
    if events == [] then s
    else s.(runEvents := Merge(s.runEvents, events, RUN_EVENT_LIMIT),
            runEventCursors := Advance(s.runEventCursors, events),
            received := s.received + events)
  }

  /** A run whose page is full is pending again. */
  function PendFullPages(pending: seq<RunId>, requests: seq<Request>, replies: seq<Reply>): seq<RunId>
    requires |requests| == |replies|
    decreases |requests|
  {
    if requests == [] then pending
    else
      var n := |requests| - 1;
      var before := PendFullPages(pending, requests[..n], replies[..n]);
      if Matching(replies[n]) && |replies[n].events| == RUN_EVENT_BATCH_LIMIT
      then AddPending(before, requests[n].runId) else before
  }

  /** All requests have settled and the conversation is still the active one. */
  function SettleFlush(s: SyncState, requests: seq<Request>, replies: seq<Reply>): SyncState
    requires |requests| == |replies|
  {
    var s1 := TakeEvents(NoteReplies(s, requests, replies), EventsOf(replies));
    s1.(pendingRunIds := PendFullPages(s1.pendingRunIds, requests, replies))
  }

  /** The finally clause of a flush. */
  function EndFlush(s: SyncState): SyncState {
    ScheduleIfPending(s.(isRunSyncing := false))
  }

  /** A conversation refresh that got its events. */
  function Refresh(s: SyncState, events: seq<RunEvent>): SyncState {
    var cursors := Advance(map[], events);
    var window := LastOnes(events, RUN_EVENT_LIMIT);
    ScheduleIfPending(s.(hasConversation := true, runEventCursors := cursors, runEvents := window,
                         baseCursors := cursors, baseEvents := window, received := []))
  }

  /** No conversation is active any more. */
  function Clear(s: SyncState): SyncState {
    SyncState(map[], [], map[], [], false, s.isRunSyncing, false, map[], [], [])
  }

  function InitialState(): SyncState {
    SyncState(map[], [], map[], [], false, false, false, map[], [], [])
  }

  // ----- client and server together

  /** logsThen are the server's logs when the requests were sent. */
  datatype Phase = Idle | Requested(requests: seq<Request>, logsThen: map<RunId, seq<RunEvent>>) | Finishing

  datatype World = World(logs: map<RunId, seq<RunEvent>>, client: SyncState, phase: Phase)

  datatype Event =
    | EventLogged(event: RunEvent)
    | StateEvent(runId: RunId)
    | TimerFires
    | RepliesArrive(replies: seq<Reply>, seen: seq<nat>, sameConversation: bool)
    | FlushEnds
    | Refreshed(events: seq<RunEvent>)
    | Cleared

  function LogOf(logs: map<RunId, seq<RunEvent>>, runId: RunId): seq<RunEvent> {
    if runId in logs then logs[runId] else []
  }

  /** The server has answered a request when its log of the run had a certain length, not before the request was sent.
      */
  predicate Answers(logsThen: map<RunId, seq<RunEvent>>, logs: map<RunId, seq<RunEvent>>,
                    request: Request, reply: Reply, seen: nat)
  {
    && |LogOf(logsThen, request.runId)| <= seen <= |LogOf(logs, request.runId)|
    && (reply.Fulfilled? ==>
          reply.events == Page(LogOf(logs, request.runId)[..seen], request.afterId, RUN_EVENT_BATCH_LIMIT))
  }

  ghost predicate Enabled(w: World, event: Event) {
    match event
    case EventLogged(e) =>
      var log := LogOf(w.logs, e.runId);
      e.id >= 1 && forall i | 0 <= i < |log| :: log[i].id < e.id
    case StateEvent(_) => true
    case TimerFires => w.client.timerSet && w.phase.Idle?
    case RepliesArrive(replies, seen, _) =>
      && w.phase.Requested?
      && |replies| == |seen| == |w.phase.requests|
      && forall i | 0 <= i < |replies| ::
           Answers(w.phase.logsThen, w.logs, w.phase.requests[i], replies[i], seen[i])
    case FlushEnds => w.phase.Finishing?
    case Refreshed(events) =>
      w.phase.Idle? && forall i | 0 <= i < |events| :: events[i] in LogOf(w.logs, events[i].runId)
    case Cleared => w.phase.Idle?
  }

  ghost function Next(w: World, event: Event): World
    requires Enabled(w, event)
  {
    match event
    case EventLogged(e) => w.(logs := w.logs[e.runId := LogOf(w.logs, e.runId) + [e]])
    case StateEvent(runId) => w.(client := RunStateEvent(w.client, runId))
    case TimerFires =>
      var (client, requests) := BeginFlush(w.client);
      w.(client := client, phase := if client.isRunSyncing then Requested(requests, w.logs) else Idle)
    case RepliesArrive(replies, _, sameConversation) =>
      w.(client := if sameConversation then SettleFlush(w.client, w.phase.requests, replies) else w.client,
         phase := Finishing)
    case FlushEnds => w.(client := EndFlush(w.client), phase := Idle)
    case Refreshed(events) => w.(client := Refresh(w.client, events))
    case Cleared => w.(client := Clear(w.client))
  }

  function InitialWorld(): World {
    World(map[], InitialState(), Idle)
  }

  ghost predicate Follows(w: World, w': World) {
    exists event :: Enabled(w, event) && w' == Next(w, event)
  }

  ghost predicate IsRun(run: seq<World>) {
    run != [] && run[0] == InitialWorld() && forall i | 0 <= i < |run| - 1 :: Follows(run[i], run[i + 1])
  }

  // ----- the events of one run

  function OfRun(events: seq<RunEvent>, runId: RunId): seq<RunEvent> {
    if events == [] then []
    else
      var n := |events| - 1;
      OfRun(events[..n], runId) + if events[n].runId == runId then [events[n]] else []
  }

  lemma {:induction false} OfRunConcat(first: seq<RunEvent>, second: seq<RunEvent>, runId: RunId)
    ensures OfRun(first + second, runId) == OfRun(first, runId) + OfRun(second, runId)
    decreases |second|
  {
    if second == [] {
      assert first + second == first;
    } else {
      var n := |second| - 1;
      assert (first + second)[..|first| + n] == first + second[..n];
      OfRunConcat(first, second[..n], runId);
    }
  }

  lemma {:induction false} OfRunAll(events: seq<RunEvent>, runId: RunId)
    requires forall i | 0 <= i < |events| :: events[i].runId == runId
    ensures OfRun(events, runId) == events
    decreases |events|
  {
    if events != [] {
      OfRunAll(events[..|events| - 1], runId);
    }
  }

  lemma {:induction false} OfRunNone(events: seq<RunEvent>, runId: RunId)
    requires forall i | 0 <= i < |events| :: events[i].runId != runId
    ensures OfRun(events, runId) == []
    decreases |events|
  {
    if events != [] {
      OfRunNone(events[..|events| - 1], runId);
    }
  }

  /** The cursor stands behind the first position events of the log. */
  ghost predicate AtPosition(log: seq<RunEvent>, cursor: Option<int>, position: nat) {
    position <= |log| && cursor == if position == 0 then None else Some(log[position - 1].id)
  }

  /** What has been received of a run is exactly what its log holds between two cursors. */
  ghost predicate NoHole(log: seq<RunEvent>, base: Option<int>, got: seq<RunEvent>, cursor: Option<int>, start: nat) {
    && start + |got| <= |log|
    && AtPosition(log, base, start)
    && got == log[start..start + |got|]
    && AtPosition(log, cursor, start + |got|)
  }

  // ----- a page continues where the cursor stands

  lemma {:induction false} IdsAfterAll(log: seq<RunEvent>, id: int)
    requires forall i | 0 <= i < |log| :: log[i].id > id
    ensures IdsAfter(log, id) == log
  {
    if log != [] {
      IdsAfterAll(log[1..], id);
    }
  }

  lemma {:induction false} IdsAfterSplit(log: seq<RunEvent>, id: int, position: nat)
    requires position <= |log|
    requires forall i | 0 <= i < position :: log[i].id <= id
    requires forall i | position <= i < |log| :: log[i].id > id
    ensures IdsAfter(log, id) == log[position..]
    decreases |log|
  {
    if position == 0 {
      IdsAfterAll(log, id);
    } else {
      IdsAfterSplit(log[1..], id, position - 1);
    }
  }

  /** A page is the piece of the log right behind the cursor, as far as the server's log went and at most limit long. */
  lemma PageContinues(log: seq<RunEvent>, runId: RunId, cursor: Option<int>, position: nat, seen: nat, limit: nat)
    requires OrderedLog(log, runId) && AtPosition(log, cursor, position) && seen <= |log|
    ensures var page := Page(log[..seen], cursor, limit);
            if seen <= position then page == []
            else
              && |page| == (if seen - position <= limit then seen - position else limit)
              && page == log[position..position + |page|]
  {
    var visible := log[..seen];
    if position > 0 {
      var cut := if seen <= position then seen else position;
      assert forall i | position <= i < |log| :: log[position - 1].id < log[i].id;
      IdsAfterSplit(visible, log[position - 1].id, cut);
    }
  }

  // ----- cursors after a batch

  ghost predicate AboveCursor(events: seq<RunEvent>, cursor: Option<int>) {
    && (forall i | 0 <= i < |events| :: events[i].id >= 1 && (cursor.Some? ==> events[i].id > cursor.value))
    && (forall i, j | 0 <= i < j < |events| :: events[i].id < events[j].id)
  }

  lemma AdvanceOneCursor(cursors: map<RunId, int>, event: RunEvent, runId: RunId)
    ensures event.runId != runId ==> Cursor(AdvanceOne(cursors, event), runId) == Cursor(cursors, runId)
    ensures event.runId == runId && AboveCursor([event], Cursor(cursors, runId)) ==>
              Cursor(AdvanceOne(cursors, event), runId) == Some(event.id)
  {
    assert event.runId == runId ==> [event][0] == event;
  }

  lemma AboveCursorParts(before: seq<RunEvent>, event: RunEvent, cursor: Option<int>)
    requires AboveCursor(before + [event], cursor)
    ensures AboveCursor(before, cursor)
    ensures AboveCursor([event], if before == [] then cursor else Some(before[|before| - 1].id))
  {
    var got := before + [event];
    assert forall i | 0 <= i < |before| :: before[i] == got[i];
    assert got[|before|] == event;
  }

  /** The cursor of a run moves to its last event of the batch. */
  lemma {:induction false} AdvanceRun(cursors: map<RunId, int>, events: seq<RunEvent>, runId: RunId)
    requires AboveCursor(OfRun(events, runId), Cursor(cursors, runId))
    ensures var got := OfRun(events, runId);
            Cursor(Advance(cursors, events), runId) ==
              if got == [] then Cursor(cursors, runId) else Some(got[|got| - 1].id)
    decreases |events|
  {
    hide AdvanceOne, Cursor, AboveCursor;
    if events != [] {
      var n := |events| - 1;
      var before := OfRun(events[..n], runId);
      if events[n].runId == runId {
        AboveCursorParts(before, events[n], Cursor(cursors, runId));
      } else {
        assert before + [] == before;
      }
      AdvanceRun(cursors, events[..n], runId);
      AdvanceOneCursor(Advance(cursors, events[..n]), events[n], runId);
    }
  }

  /** Cursors set from scratch stand at an event of the batch. */
  lemma {:induction false} AdvanceFromNothing(events: seq<RunEvent>, runId: RunId)
    requires forall i | 0 <= i < |events| :: events[i].id >= 1
    ensures var cursor := Cursor(Advance(map[], events), runId);
            cursor.Some? ==> exists i :: 0 <= i < |events| && events[i].runId == runId && cursor == Some(events[i].id)
    decreases |events|
  {
    if events != [] {
      var n := |events| - 1;
      AdvanceFromNothing(events[..n], runId);
      var before := Cursor(Advance(map[], events[..n]), runId);
      if before.Some? {
        var i :| 0 <= i < n && events[..n][i].runId == runId && before == Some(events[..n][i].id);
        assert events[i].runId == runId && before == Some(events[i].id);
      }
      assert events[n] == events[n];
    }
  }

  // ----- what every step keeps

  ghost predicate RunInv(logs: map<RunId, seq<RunEvent>>, s: SyncState, runId: RunId) {
    && OrderedLog(LogOf(logs, runId), runId)
    && exists start: nat :: NoHole(LogOf(logs, runId), Cursor(s.baseCursors, runId), OfRun(s.received, runId),
                              Cursor(s.runEventCursors, runId), start)
  }

  predicate Distinct(runIds: seq<RunId>) {
    forall i, j | 0 <= i < j < |runIds| :: runIds[i] != runIds[j]
  }

  predicate DistinctRuns(requests: seq<Request>) {
    forall i, j | 0 <= i < j < |requests| :: requests[i].runId != requests[j].runId
  }

  ghost predicate RequestsInv(w: World) {
    w.phase.Requested? ==>
      && DistinctRuns(w.phase.requests)
      && forall i | 0 <= i < |w.phase.requests| ::
           w.phase.requests[i].afterId == Cursor(w.client.runEventCursors, w.phase.requests[i].runId)
  }

  /** A pending run of the active conversation has a timer or a flush that will see to it. */
  ghost predicate WakeInv(w: World) {
    && Distinct(w.client.pendingRunIds)
    && (w.client.isRunSyncing <==> !w.phase.Idle?)
    && (w.client.pendingRunIds != [] && w.client.hasConversation && w.phase.Idle? ==> w.client.timerSet)
  }

  ghost predicate RetryInv(s: SyncState) {
    forall runId | runId in s.retryAttempts :: 1 <= s.retryAttempts[runId] <= MAX_RETRIES
  }

  /** The window shown is that of the last refresh with everything received since merged at once. */
  ghost predicate WindowInv(s: SyncState) {
    s.runEvents == if s.received == [] then s.baseEvents else Merge(s.baseEvents, s.received, RUN_EVENT_LIMIT)
  }

  ghost predicate Inv(w: World) {
    && (forall runId :: RunInv(w.logs, w.client, runId))
    && RequestsInv(w)
    && WakeInv(w)
    && RetryInv(w.client)
    && WindowInv(w.client)
  }

  // ----- the bookkeeping of a flush

  lemma NoteReplyFrame(s: SyncState, runId: RunId, reply: Reply)
    ensures var s' := NoteReply(s, runId, reply);
            && s' == s.(pendingRunIds := s'.pendingRunIds, retryAttempts := s'.retryAttempts)
            && (Distinct(s.pendingRunIds) ==> Distinct(s'.pendingRunIds))
            && (RetryInv(s) ==> RetryInv(s'))
  {
  }

  lemma NoteReplyAt(s: SyncState, runId: RunId, reply: Reply)
    ensures var s', again := NoteReply(s, runId, reply), reply.Rejected? && Attempts(s, runId) < MAX_RETRIES;
            && Attempts(s', runId) == (if again then Attempts(s, runId) + 1 else 0)
            && (runId in s'.pendingRunIds <==> runId in s.pendingRunIds || again)
  {
  }

  lemma NoteReplyOther(s: SyncState, runId: RunId, reply: Reply, other: RunId)
    requires other != runId
    ensures var s' := NoteReply(s, runId, reply);
            && (other in s'.pendingRunIds <==> other in s.pendingRunIds)
            && (other in s'.retryAttempts <==> other in s.retryAttempts)
            && (other in s.retryAttempts ==> s'.retryAttempts[other] == s.retryAttempts[other])
  {
  }

  lemma {:induction false} NoteRepliesFrame(s: SyncState, requests: seq<Request>, replies: seq<Reply>)
    requires |requests| == |replies|
    ensures var s' := NoteReplies(s, requests, replies);
            && s' == s.(pendingRunIds := s'.pendingRunIds, retryAttempts := s'.retryAttempts)
            && (Distinct(s.pendingRunIds) ==> Distinct(s'.pendingRunIds))
            && (RetryInv(s) ==> RetryInv(s'))
    decreases |requests|
  {
    hide NoteReply;
    if requests != [] {
      var n := |requests| - 1;
      NoteRepliesFrame(s, requests[..n], replies[..n]);
      NoteReplyFrame(NoteReplies(s, requests[..n], replies[..n]), requests[n].runId, replies[n]);
    }
  }

  lemma {:induction false} NoteRepliesOther(s: SyncState, requests: seq<Request>, replies: seq<Reply>, runId: RunId)
    requires |requests| == |replies|
    requires forall i | 0 <= i < |requests| :: requests[i].runId != runId
    ensures var s' := NoteReplies(s, requests, replies);
            && (runId in s'.pendingRunIds <==> runId in s.pendingRunIds)
            && (runId in s'.retryAttempts <==> runId in s.retryAttempts)
            && (runId in s.retryAttempts ==> s'.retryAttempts[runId] == s.retryAttempts[runId])
    decreases |requests|
  {
    hide NoteReply;
    if requests != [] {
      var n := |requests| - 1;
      NoteRepliesOther(s, requests[..n], replies[..n], runId);
      NoteReplyOther(NoteReplies(s, requests[..n], replies[..n]), requests[n].runId, replies[n], runId);
    }
  }

  function Attempts(s: SyncState, runId: RunId): nat {
    if runId in s.retryAttempts then s.retryAttempts[runId] else 0
  }

  /** What a flush notes about one of its runs: a success forgets the failures; a failure makes the run pending again,
      but the fifth in a row gives it up. */
  lemma {:induction false} NoteRepliesAt(s: SyncState, requests: seq<Request>, replies: seq<Reply>, i: nat)
    requires |requests| == |replies| && i < |requests| && DistinctRuns(requests)
    ensures var s' := NoteReplies(s, requests, replies);
            var runId := requests[i].runId;
            var again := replies[i].Rejected? && Attempts(s, runId) < MAX_RETRIES;
            && Attempts(s', runId) == (if again then Attempts(s, runId) + 1 else 0)
            && (runId in s'.pendingRunIds <==> runId in s.pendingRunIds || again)
    decreases |requests|
  {
    hide NoteReply;
    var n := |requests| - 1;
    var before := NoteReplies(s, requests[..n], replies[..n]);
    if i == n {
      NoteRepliesOther(s, requests[..n], replies[..n], requests[n].runId);
      NoteReplyAt(before, requests[n].runId, replies[n]);
    } else {
      NoteRepliesAt(s, requests[..n], replies[..n], i);
      NoteReplyOther(before, requests[n].runId, replies[n], requests[i].runId);
    }
  }

  lemma {:induction false} PendFullPagesAdds(pending: seq<RunId>, requests: seq<Request>, replies: seq<Reply>)
    requires |requests| == |replies|
    ensures var pending' := PendFullPages(pending, requests, replies);
            && (Distinct(pending) ==> Distinct(pending'))
            && (forall runId :: runId in pending' <==>
                  || runId in pending
                  || exists i :: 0 <= i < |requests| && requests[i].runId == runId && Matching(replies[i])
                                 && |replies[i].events| == RUN_EVENT_BATCH_LIMIT)
    decreases |requests|
  {
    if requests != [] {
      var n := |requests| - 1;
      PendFullPagesAdds(pending, requests[..n], replies[..n]);
    }
  }

  // ----- a flush as seen by one run

  predicate EventsOfTheirRuns(requests: seq<Request>, replies: seq<Reply>)
    requires |requests| == |replies|
  {
    forall i, k | 0 <= i < |replies| && replies[i].Fulfilled? && 0 <= k < |replies[i].events| ::
      replies[i].events[k].runId == requests[i].runId
  }

  lemma EventsOfStep(replies: seq<Reply>, runId: RunId)
    requires replies != []
    ensures var n := |replies| - 1;
            OfRun(EventsOf(replies), runId) == OfRun(EventsOf(replies[..n]), runId) + OfRun(Taken(replies[n]), runId)
  {
    OfRunConcat(EventsOf(replies[..|replies| - 1]), Taken(replies[|replies| - 1]), runId);
  }

  lemma {:induction false} EventsOfOther(requests: seq<Request>, replies: seq<Reply>, runId: RunId)
    requires |requests| == |replies| && EventsOfTheirRuns(requests, replies)
    requires forall i | 0 <= i < |requests| :: requests[i].runId != runId
    ensures OfRun(EventsOf(replies), runId) == []
    decreases |requests|
  {
    if requests != [] {
      var n := |requests| - 1;
      EventsOfOther(requests[..n], replies[..n], runId);
      EventsOfStep(replies, runId);
      OfRunNone(Taken(replies[n]), runId);
    }
  }

  lemma {:induction false} EventsOfThis(requests: seq<Request>, replies: seq<Reply>, i: nat)
    requires |requests| == |replies| && i < |requests| && EventsOfTheirRuns(requests, replies) && DistinctRuns(requests)
    ensures OfRun(EventsOf(replies), requests[i].runId) == Taken(replies[i])
    decreases |requests|
  {
    hide OfRun, EventsOf;
    var n := |requests| - 1;
    EventsOfStep(replies, requests[i].runId);
    if i == n {
      EventsOfOther(requests[..n], replies[..n], requests[n].runId);
      OfRunAll(Taken(replies[n]), requests[n].runId);
    } else {
      EventsOfThis(requests[..n], replies[..n], i);
      OfRunNone(Taken(replies[n]), requests[i].runId);
    }
  }

  lemma AnswersAreOfTheirRuns(logsThen: map<RunId, seq<RunEvent>>, logs: map<RunId, seq<RunEvent>>,
                              requests: seq<Request>, replies: seq<Reply>, seen: seq<nat>)
    requires |requests| == |replies| == |seen|
    requires forall i | 0 <= i < |requests| ::
               && Answers(logsThen, logs, requests[i], replies[i], seen[i])
               && OrderedLog(LogOf(logs, requests[i].runId), requests[i].runId)
               && exists position :: AtPosition(LogOf(logs, requests[i].runId), requests[i].afterId, position)
    ensures EventsOfTheirRuns(requests, replies)
  {
    hide Page;
    forall i | 0 <= i < |requests| && replies[i].Fulfilled?
      ensures forall k | 0 <= k < |replies[i].events| :: replies[i].events[k].runId == requests[i].runId
    {
      var log := LogOf(logs, requests[i].runId);
      var position :| AtPosition(log, requests[i].afterId, position);
      PageContinues(log, requests[i].runId, requests[i].afterId, position, seen[i], RUN_EVENT_BATCH_LIMIT);
    }
  }

  /** Nothing is taken for a run, so its cursor and its events stay. */
  lemma TakeNothing(s: SyncState, events: seq<RunEvent>, runId: RunId)
    requires OfRun(events, runId) == []
    ensures var s' := TakeEvents(s, events);
            && OfRun(s'.received, runId) == OfRun(s.received, runId)
            && Cursor(s'.runEventCursors, runId) == Cursor(s.runEventCursors, runId)
            && s'.baseCursors == s.baseCursors
  {
    hide OfRun, Advance, Merge, Cursor;
    OfRunConcat(s.received, events, runId);
    AdvanceRun(s.runEventCursors, events, runId);
  }

  lemma NoHoleExtends(log: seq<RunEvent>, base: Option<int>, got: seq<RunEvent>, cursor: Option<int>, start: nat,
                      page: seq<RunEvent>)
    requires NoHole(log, base, got, cursor, start) && page != []
    requires var position := start + |got|;
             position + |page| <= |log| && page == log[position..position + |page|]
    ensures NoHole(log, base, got + page, Some(page[|page| - 1].id), start)
  {
    var position := start + |got|;
    assert log[start..position] + log[position..position + |page|] == log[start..position + |page|];
  }

  /** What a page adds for its run continues what has been received. */
  lemma TakePage(log: seq<RunEvent>, s: SyncState, events: seq<RunEvent>, runId: RunId, start: nat, seen: nat)
    requires OrderedLog(log, runId) && seen <= |log|
    requires NoHole(log, Cursor(s.baseCursors, runId), OfRun(s.received, runId), Cursor(s.runEventCursors, runId),
                    start)
    requires OfRun(events, runId) == Page(log[..seen], Cursor(s.runEventCursors, runId), RUN_EVENT_BATCH_LIMIT)
    ensures var s' := TakeEvents(s, events);
            var got := OfRun(s'.received, runId);
            && NoHole(log, Cursor(s'.baseCursors, runId), got, Cursor(s'.runEventCursors, runId), start)
            && (|OfRun(events, runId)| < RUN_EVENT_BATCH_LIMIT ==> start + |got| >= seen)
  {
    hide OfRun, Advance, Merge, Page, Cursor, TakeEvents, OrderedLog, AtPosition, AboveCursor;
    var page, got, cursor := OfRun(events, runId), OfRun(s.received, runId), Cursor(s.runEventCursors, runId);
    PageContinues(log, runId, cursor, start + |got|, seen, RUN_EVENT_BATCH_LIMIT);
    if page == [] {
      TakeNothing(s, events, runId);
    } else {
      NoHoleExtends(log, Cursor(s.baseCursors, runId), got, cursor, start, page);
      PageIsAbove(log, runId, cursor, start + |got|, page);
      TakeSome(s, events, runId);
    }
  }

  lemma PageIsAbove(log: seq<RunEvent>, runId: RunId, cursor: Option<int>, position: nat, page: seq<RunEvent>)
    requires OrderedLog(log, runId) && AtPosition(log, cursor, position)
    requires position + |page| <= |log| && page == log[position..position + |page|]
    ensures AboveCursor(page, cursor)
  {
    assert forall k | 0 <= k < |page| :: page[k] == log[position + k];
  }

  lemma TakeSome(s: SyncState, events: seq<RunEvent>, runId: RunId)
    requires OfRun(events, runId) != [] && AboveCursor(OfRun(events, runId), Cursor(s.runEventCursors, runId))
    ensures var s' := TakeEvents(s, events);
            var page := OfRun(events, runId);
            && OfRun(s'.received, runId) == OfRun(s.received, runId) + page
            && Cursor(s'.runEventCursors, runId) == Some(page[|page| - 1].id)
            && s'.baseCursors == s.baseCursors
  {
    hide Advance, Merge, Cursor, AboveCursor;
    assert events != [];
    OfRunConcat(s.received, events, runId);
    AdvanceRun(s.runEventCursors, events, runId);
  }

  /** A flush and one of its runs: nothing is skipped or repeated, and afterwards either everything that the server had
      when it answered has been received, or the run is pending again. */
  lemma FlushContinues(w: World, replies: seq<Reply>, seen: seq<nat>, i: nat)
    requires Inv(w) && Enabled(w, RepliesArrive(replies, seen, true)) && i < |replies|
    ensures var runId := w.phase.requests[i].runId;
            var log := LogOf(w.logs, runId);
            var s' := SettleFlush(w.client, w.phase.requests, replies);
            exists start: nat ::
              && NoHole(log, Cursor(s'.baseCursors, runId), OfRun(s'.received, runId),
                        Cursor(s'.runEventCursors, runId), start)
              && (Matching(replies[i]) ==> start + |OfRun(s'.received, runId)| >= seen[i] || runId in s'.pendingRunIds)
  {
    hide OfRun, EventsOf, Merge, Advance, Page, NoteReplies, PendFullPages, OrderedLog, NoHole, WakeInv, RetryInv,
         WindowInv;
    var requests, runId := w.phase.requests, w.phase.requests[i].runId;
    var log := LogOf(w.logs, runId);
    assert RunInv(w.logs, w.client, runId);
    var start: nat :| NoHole(log, Cursor(w.client.baseCursors, runId), OfRun(w.client.received, runId),
                        Cursor(w.client.runEventCursors, runId), start);
    var s0 := NoteReplies(w.client, requests, replies);
    NoteRepliesFrame(w.client, requests, replies);
    RepliesOfTheirRuns(w, replies, seen);
    EventsOfThis(requests, replies, i);
    var events := EventsOf(replies);
    if Matching(replies[i]) {
      assert Answers(w.phase.logsThen, w.logs, requests[i], replies[i], seen[i]);
      TakePage(log, s0, events, runId, start, seen[i]);
      PendFullPagesAdds(TakeEvents(s0, events).pendingRunIds, requests, replies);
      PageIsLimited(log[..seen[i]], requests[i].afterId, RUN_EVENT_BATCH_LIMIT);
      var s' := SettleFlush(w.client, requests, replies);
      assert |replies[i].events| == RUN_EVENT_BATCH_LIMIT ==> runId in s'.pendingRunIds;
      assert OfRun(s'.received, runId) == OfRun(TakeEvents(s0, events).received, runId);
    } else {
      TakeNothing(s0, events, runId);
      var s' := SettleFlush(w.client, requests, replies);
      assert NoHole(log, Cursor(s'.baseCursors, runId), OfRun(s'.received, runId), Cursor(s'.runEventCursors, runId),
                    start);
    }
  }

  lemma PageIsLimited(log: seq<RunEvent>, afterId: Option<int>, limit: nat)
    ensures |Page(log, afterId, limit)| <= limit
  {
  }

  lemma RepliesOfTheirRuns(w: World, replies: seq<Reply>, seen: seq<nat>)
    requires Inv(w) && Enabled(w, RepliesArrive(replies, seen, true))
    ensures EventsOfTheirRuns(w.phase.requests, replies)
  {
    hide OfRun, WakeInv, RetryInv, WindowInv, OrderedLog, Answers;
    var requests := w.phase.requests;
    forall i | 0 <= i < |requests|
      ensures OrderedLog(LogOf(w.logs, requests[i].runId), requests[i].runId)
      ensures exists position :: AtPosition(LogOf(w.logs, requests[i].runId), requests[i].afterId, position)
    {
      var runId := requests[i].runId;
      assert RunInv(w.logs, w.client, runId);
      var start: nat :| NoHole(LogOf(w.logs, runId), Cursor(w.client.baseCursors, runId),
                               OfRun(w.client.received, runId), Cursor(w.client.runEventCursors, runId), start);
      assert AtPosition(LogOf(w.logs, runId), requests[i].afterId, start + |OfRun(w.client.received, runId)|);
    }
    AnswersAreOfTheirRuns(w.phase.logsThen, w.logs, requests, replies, seen);
  }

  /** A flush as seen by a run that it did not ask for. */
  lemma FlushLeavesOthers(w: World, replies: seq<Reply>, seen: seq<nat>, runId: RunId)
    requires Inv(w) && Enabled(w, RepliesArrive(replies, seen, true))
    requires forall i | 0 <= i < |replies| :: w.phase.requests[i].runId != runId
    ensures RunInv(w.logs, SettleFlush(w.client, w.phase.requests, replies), runId)
  {
    hide OfRun, EventsOf, Merge, Advance, NoteReplies, PendFullPages, OrderedLog, NoHole, WakeInv, RetryInv, WindowInv,
         Answers;
    var requests := w.phase.requests;
    RepliesOfTheirRuns(w, replies, seen);
    EventsOfOther(requests, replies, runId);
    NoteRepliesFrame(w.client, requests, replies);
    TakeNothing(NoteReplies(w.client, requests, replies), EventsOf(replies), runId);
    assert RunInv(w.logs, w.client, runId);
  }

  lemma FlushKeepsRun(w: World, replies: seq<Reply>, seen: seq<nat>, runId: RunId)
    requires Inv(w) && Enabled(w, RepliesArrive(replies, seen, true))
    ensures RunInv(w.logs, SettleFlush(w.client, w.phase.requests, replies), runId)
  {
    hide WakeInv, RetryInv, WindowInv, SettleFlush, RequestsInv, Answers, OrderedLog, NoHole;
    if i :| 0 <= i < |replies| && w.phase.requests[i].runId == runId {
      FlushContinues(w, replies, seen, i);
      assert RunInv(w.logs, w.client, runId);
    } else {
      FlushLeavesOthers(w, replies, seen, runId);
    }
  }

  lemma WindowGrows(s: SyncState, events: seq<RunEvent>)
    requires WindowInv(s)
    ensures WindowInv(TakeEvents(s, events))
  {
    hide Merge;
    if events != [] {
      if s.received == [] {
        assert [] + events == events;
      } else {
        MergeBatches(s.baseEvents, s.received, events, RUN_EVENT_LIMIT);
      }
    }
  }

  lemma FlushKeepsInv(w: World, replies: seq<Reply>, seen: seq<nat>)
    requires Inv(w) && Enabled(w, RepliesArrive(replies, seen, true))
    ensures Inv(Next(w, RepliesArrive(replies, seen, true)))
  {
    hide RunInv, Merge, Advance, EventsOf, NoteReplies, PendFullPages, Answers, Matching, AddPending;
    forall runId
      ensures RunInv(w.logs, SettleFlush(w.client, w.phase.requests, replies), runId)
    {
      FlushKeepsRun(w, replies, seen, runId);
    }
    var s0 := NoteReplies(w.client, w.phase.requests, replies);
    NoteRepliesFrame(w.client, w.phase.requests, replies);
    WindowGrows(s0, EventsOf(replies));
    PendFullPagesAdds(TakeEvents(s0, EventsOf(replies)).pendingRunIds, w.phase.requests, replies);
  }

  lemma NoHoleInLonger(log: seq<RunEvent>, longer: seq<RunEvent>, base: Option<int>, got: seq<RunEvent>,
                       cursor: Option<int>, start: nat)
    requires log <= longer && NoHole(log, base, got, cursor, start)
    ensures NoHole(longer, base, got, cursor, start)
  {
    assert longer[start..start + |got|] == log[start..start + |got|];
  }

  lemma LogStaysOrdered(log: seq<RunEvent>, event: RunEvent)
    requires OrderedLog(log, event.runId) && event.id >= 1 && forall i | 0 <= i < |log| :: log[i].id < event.id
    ensures OrderedLog(log + [event], event.runId)
  {
  }

  lemma LoggedKeepsRun(w: World, event: RunEvent, runId: RunId)
    requires RunInv(w.logs, w.client, runId) && Enabled(w, EventLogged(event))
    ensures RunInv(Next(w, EventLogged(event)).logs, w.client, runId)
  {
    hide OfRun, NoHole, OrderedLog, Cursor;
    var log, log' := LogOf(w.logs, runId), LogOf(Next(w, EventLogged(event)).logs, runId);
    var start: nat :| NoHole(log, Cursor(w.client.baseCursors, runId), OfRun(w.client.received, runId),
                             Cursor(w.client.runEventCursors, runId), start);
    if event.runId == runId {
      LogStaysOrdered(log, event);
    }
    NoHoleInLonger(log, log', Cursor(w.client.baseCursors, runId), OfRun(w.client.received, runId),
                   Cursor(w.client.runEventCursors, runId), start);
  }

  lemma LoggedKeepsInv(w: World, event: RunEvent)
    requires Inv(w) && Enabled(w, EventLogged(event))
    ensures Inv(Next(w, EventLogged(event)))
  {
    hide RunInv, Merge;
    forall runId
      ensures RunInv(Next(w, EventLogged(event)).logs, w.client, runId)
    {
      LoggedKeepsRun(w, event, runId);
    }
  }

  lemma RefreshedKeepsRun(w: World, events: seq<RunEvent>, runId: RunId)
    requires Inv(w) && Enabled(w, Refreshed(events))
    ensures RunInv(w.logs, Refresh(w.client, events), runId)
  {
    hide Advance, WakeInv, RetryInv, WindowInv, NoHole;
    var log, s' := LogOf(w.logs, runId), Refresh(w.client, events);
    assert RunInv(w.logs, w.client, runId);
    forall i | 0 <= i < |events|
      ensures events[i].id >= 1
    {
      assert RunInv(w.logs, w.client, events[i].runId);
    }
    AdvanceFromNothing(events, runId);
    var cursor := Cursor(s'.runEventCursors, runId);
    var start := 0;
    if cursor.Some? {
      var i :| 0 <= i < |events| && events[i].runId == runId && cursor == Some(events[i].id);
      var k :| 0 <= k < |log| && log[k] == events[i];
      start := k + 1;
    }
    NothingReceived(w.logs, s', runId, start);
  }

  lemma NothingReceived(logs: map<RunId, seq<RunEvent>>, s: SyncState, runId: RunId, start: nat)
    requires OrderedLog(LogOf(logs, runId), runId)
    requires AtPosition(LogOf(logs, runId), Cursor(s.runEventCursors, runId), start)
    requires s.baseCursors == s.runEventCursors && s.received == []
    ensures RunInv(logs, s, runId)
  {
    assert NoHole(LogOf(logs, runId), Cursor(s.baseCursors, runId), OfRun(s.received, runId),
                  Cursor(s.runEventCursors, runId), start);
  }

  lemma RefreshedKeepsInv(w: World, events: seq<RunEvent>)
    requires Inv(w) && Enabled(w, Refreshed(events))
    ensures Inv(Next(w, Refreshed(events)))
  {
    hide RunInv, Merge, Advance, LastOnes;
    forall runId
      ensures RunInv(w.logs, Refresh(w.client, events), runId)
    {
      RefreshedKeepsRun(w, events, runId);
    }
  }

  lemma ClearedKeepsInv(w: World)
    requires Inv(w) && Enabled(w, Cleared)
    ensures Inv(Next(w, Cleared))
  {
    hide Merge;
    forall runId
      ensures RunInv(w.logs, Clear(w.client), runId)
    {
      assert RunInv(w.logs, w.client, runId);
      NothingReceived(w.logs, Clear(w.client), runId, 0);
    }
  }

  lemma RunInvFrame(logs: map<RunId, seq<RunEvent>>, s: SyncState, s': SyncState)
    requires s'.baseCursors == s.baseCursors && s'.received == s.received && s'.runEventCursors == s.runEventCursors
    ensures forall runId :: RunInv(logs, s, runId) <==> RunInv(logs, s', runId)
  {
  }

  /** A step that concerns the pending runs and the timer only. */
  lemma SchedulingKeepsInv(w: World, w': World)
    requires Inv(w) && RequestsInv(w') && WakeInv(w') && w'.logs == w.logs
    requires var s, s' := w.client, w'.client;
             s' == s.(pendingRunIds := s'.pendingRunIds, timerSet := s'.timerSet, isRunSyncing := s'.isRunSyncing)
    ensures Inv(w')
  {
    hide RunInv, RequestsInv, WakeInv, WindowInv, RetryInv;
    RunInvFrame(w.logs, w.client, w'.client);
    FrameKept(w.client, w'.client);
  }

  lemma StateEventKeepsInv(w: World, runId: RunId)
    requires Inv(w)
    ensures Inv(Next(w, StateEvent(runId)))
  {
    hide RunInv, WindowInv, RetryInv;
    SchedulingKeepsInv(w, Next(w, StateEvent(runId)));
  }

  lemma TimerKeepsInv(w: World)
    requires Inv(w) && Enabled(w, TimerFires)
    ensures Inv(Next(w, TimerFires))
  {
    hide RunInv, WindowInv, RetryInv;
    SchedulingKeepsInv(w, Next(w, TimerFires));
  }

  lemma FlushEndKeepsInv(w: World)
    requires Inv(w) && Enabled(w, FlushEnds)
    ensures Inv(Next(w, FlushEnds))
  {
    hide RunInv, WindowInv, RetryInv;
    SchedulingKeepsInv(w, Next(w, FlushEnds));
  }

  lemma DiscardedKeepsInv(w: World, event: Event)
    requires Inv(w) && Enabled(w, event) && event.RepliesArrive? && !event.sameConversation
    ensures Inv(Next(w, event))
  {
    hide RunInv, WindowInv, RetryInv, Answers;
    RunInvFrame(w.logs, w.client, Next(w, event).client);
  }

  lemma InvStep(w: World, event: Event)
    requires Inv(w) && Enabled(w, event)
    ensures Inv(Next(w, event))
  {
    hide Inv, Next, Enabled;
    match event
    case EventLogged(e) => LoggedKeepsInv(w, e);
    case Refreshed(events) => RefreshedKeepsInv(w, events);
    case Cleared => ClearedKeepsInv(w);
    case RepliesArrive(replies, seen, same) =>
      if same {
        FlushKeepsInv(w, replies, seen);
      } else {
        DiscardedKeepsInv(w, event);
      }
    case StateEvent(runId) => StateEventKeepsInv(w, runId);
    case TimerFires => TimerKeepsInv(w);
    case FlushEnds => FlushEndKeepsInv(w);
  }

  lemma FrameKept(s: SyncState, s': SyncState)
    requires s' == s.(pendingRunIds := s'.pendingRunIds, timerSet := s'.timerSet, isRunSyncing := s'.isRunSyncing)
    requires RetryInv(s) && WindowInv(s)
    ensures RetryInv(s') && WindowInv(s')
  {
  }

  lemma {:induction false} InvHolds(run: seq<World>, i: nat)
    requires IsRun(run) && i < |run|
    ensures Inv(run[i])
  {
    hide Inv;
    if i == 0 {
      InitialInv();
    } else {
      InvHolds(run, i - 1);
      assert Follows(run[i - 1], run[i - 1 + 1]);
      var event :| Enabled(run[i - 1], event) && run[i] == Next(run[i - 1], event);
      InvStep(run[i - 1], event);
    }
  }

  lemma InitialInv()
    ensures Inv(InitialWorld())
  {
    hide Merge;
    forall runId
      ensures RunInv(map[], InitialState(), runId)
    {
      NothingReceived(map[], InitialState(), runId, 0);
    }
  }

  // ----- what the window and the cursors are worth

  /** In every reachable state, what has been received of a run since the last refresh is a gapless piece of the
      server's log: it starts where the refresh left the cursor, repeats nothing, and ends at the cursor. */
  lemma NothingSkippedOrRepeated(run: seq<World>, i: nat, runId: RunId)
    requires IsRun(run) && i < |run|
    ensures var log, s := LogOf(run[i].logs, runId), run[i].client;
            && OrderedLog(log, runId)
            && exists start: nat :: NoHole(log, Cursor(s.baseCursors, runId), OfRun(s.received, runId),
                                           Cursor(s.runEventCursors, runId), start)
  {
    InvHolds(run, i);
    assert RunInv(run[i].logs, run[i].client, runId);
  }

  /** The window is what one merge of everything received would give. */
  lemma WindowIsOneMerge(run: seq<World>, i: nat)
    requires IsRun(run) && i < |run| && run[i].client.received != []
    ensures run[i].client.runEvents == Merge(run[i].client.baseEvents, run[i].client.received, RUN_EVENT_LIMIT)
  {
    InvHolds(run, i);
  }

  /** No wake-up is lost: a pending run of the active conversation has the timer or a flush that ends by setting it. */
  lemma PendingRunsAreSeenTo(run: seq<World>, i: nat)
    requires IsRun(run) && i < |run|
    requires run[i].client.hasConversation && run[i].client.pendingRunIds != []
    ensures run[i].client.timerSet || run[i].phase.Requested? || run[i].phase.Finishing?
    ensures run[i].phase.Finishing? ==> Next(run[i], FlushEnds).client.timerSet
    ensures run[i].phase.Idle? ==>
              Next(run[i], TimerFires).phase ==
              Requested(RequestsFor(run[i].client.runEventCursors, run[i].client.pendingRunIds), run[i].logs)
  {
    InvHolds(run, i);
  }

  /** Which of its runs a flush leaves pending: those noted meanwhile, those that failed at most four times in a row,
      and those whose page was full. */
  lemma PendingAfterFlush(w: World, replies: seq<Reply>, seen: seq<nat>, i: nat)
    requires Inv(w) && Enabled(w, RepliesArrive(replies, seen, true)) && i < |replies|
    ensures var runId := w.phase.requests[i].runId;
            var s' := Next(w, RepliesArrive(replies, seen, true)).client;
            && (runId in s'.pendingRunIds <==>
                  || runId in w.client.pendingRunIds
                  || (replies[i].Rejected? && Attempts(w.client, runId) < MAX_RETRIES)
                  || (Matching(replies[i]) && |replies[i].events| == RUN_EVENT_BATCH_LIMIT))
            && Attempts(s', runId) == (if replies[i].Rejected? && Attempts(w.client, runId) < MAX_RETRIES
                                       then Attempts(w.client, runId) + 1 else 0)
            && 0 <= Attempts(s', runId) <= MAX_RETRIES
  {
    hide RunInv, WakeInv, WindowInv, NoteReplies, PendFullPages, Answers, EventsOf, Merge, Advance;
    var requests := w.phase.requests;
    var s0 := NoteReplies(w.client, requests, replies);
    NoteRepliesAt(w.client, requests, replies, i);
    PendFullPagesAdds(TakeEvents(s0, EventsOf(replies)).pendingRunIds, requests, replies);
    assert forall k | 0 <= k < |requests| && requests[k].runId == requests[i].runId :: k == i;
  }

  // ----- the object

  /** The closure of useDesktopRunSync. */
  class Synchronizer {
    var runEventCursors: map<RunId, int>
    var pendingRunIds: seq<RunId>
    var retryAttempts: map<RunId, nat>
    var runEvents: seq<RunEvent>
    var timerSet: bool
    var isRunSyncing: bool
    var hasConversation: bool
    ghost var baseCursors: map<RunId, int>
    ghost var baseEvents: seq<RunEvent>
    ghost var received: seq<RunEvent>

    ghost function State(): SyncState
      reads this
    {
      SyncState(runEventCursors, pendingRunIds, retryAttempts, runEvents, timerSet, isRunSyncing, hasConversation,
                baseCursors, baseEvents, received)
    }

    constructor ()
      ensures State() == InitialState()
    {
      runEventCursors, pendingRunIds, retryAttempts, runEvents := map[], [], map[], [];
      timerSet, isRunSyncing, hasConversation := false, false, false;
      baseCursors, baseEvents, received := map[], [], [];
    }

    method ScheduleRunSync()
      modifies this`timerSet
      ensures State() == Schedule(old(State()))
    {
      if timerSet || isRunSyncing {
        return;
      }
      timerSet := true;
    }

    method AddPendingRun(runId: RunId)
      modifies this`pendingRunIds
      ensures pendingRunIds == AddPending(old(pendingRunIds), runId)
    {
      if runId !in pendingRunIds {
        pendingRunIds := pendingRunIds + [runId];
      }
    }

    method HandleRunStateEvent(runId: RunId)
      modifies this
      ensures State() == RunStateEvent(old(State()), runId)
    {
      AddPendingRun(runId);
      ScheduleRunSync();
    }

    method UpdateRunEventCursors(events: seq<RunEvent>)
      modifies this`runEventCursors
      ensures runEventCursors == Advance(old(runEventCursors), events)
    {
      for i := 0 to |events|
        invariant runEventCursors == Advance(old(runEventCursors), events[..i])
      {
        assert events[..i + 1][..i] == events[..i];
        var seen := if events[i].runId in runEventCursors then runEventCursors[events[i].runId] else 0;
        runEventCursors := runEventCursors[events[i].runId := if seen <= events[i].id then events[i].id else seen];
      }
      assert events[..|events|] == events;
    }

    /** flushRunUpdates up to its first await. */
    method StartFlush() returns (requests: seq<Request>)
      modifies this
      ensures (State(), requests) == BeginFlush(old(State()))
    {
      timerSet := false;
      requests := [];
      if !hasConversation || pendingRunIds == [] {
        return;
      }
      for i := 0 to |pendingRunIds|
        invariant |requests| == i
        invariant forall k | 0 <= k < i ::
                    requests[k] == Request(pendingRunIds[k], Cursor(runEventCursors, pendingRunIds[k]))
      {
        requests := requests + [Request(pendingRunIds[i], Cursor(runEventCursors, pendingRunIds[i]))];
      }
      assert requests == RequestsFor(runEventCursors, pendingRunIds);
      pendingRunIds := [];
      isRunSyncing := true;
    }

    /** The retry bookkeeping in the loop over the settled requests. */
    method NoteUpdate(runId: RunId, reply: Reply)
      modifies this`retryAttempts, this`pendingRunIds
      ensures State() == NoteReply(old(State()), runId, reply)
    {
      if reply.Fulfilled? {
        retryAttempts := retryAttempts - {runId};
        return;
      }
      var retryAttempt := 1 + if runId in retryAttempts then retryAttempts[runId] else 0;
      if retryAttempt <= MAX_RETRIES {
        retryAttempts := retryAttempts[runId := retryAttempt];
        AddPendingRun(runId);
      } else {
        retryAttempts := retryAttempts - {runId};
      }
    }

    /** The loop over the settled requests. */
    method NoteSettledUpdates(requests: seq<Request>, replies: seq<Reply>) returns (nextEvents: seq<RunEvent>)
      requires |requests| == |replies|
      modifies this`retryAttempts, this`pendingRunIds
      ensures State() == NoteReplies(old(State()), requests, replies)
      ensures nextEvents == EventsOf(replies)
    {
      hide NoteReply;
      nextEvents := [];
      for i := 0 to |requests|
        invariant State() == NoteReplies(old(State()), requests[..i], replies[..i])
        invariant nextEvents == EventsOf(replies[..i])
      {
        assert requests[..i + 1][..i] == requests[..i] && replies[..i + 1][..i] == replies[..i];
        NoteUpdate(requests[i].runId, replies[i]);
        nextEvents := nextEvents + Taken(replies[i]);
      }
      assert requests[..|requests|] == requests && replies[..|replies|] == replies;
    }

    /** The loop over the matching updates. */
    method AddFullPages(requests: seq<Request>, replies: seq<Reply>)
      requires |requests| == |replies|
      modifies this`pendingRunIds
      ensures pendingRunIds == PendFullPages(old(pendingRunIds), requests, replies)
    {
      for i := 0 to |requests|
        invariant pendingRunIds == PendFullPages(old(pendingRunIds), requests[..i], replies[..i])
      {
        assert requests[..i + 1][..i] == requests[..i] && replies[..i + 1][..i] == replies[..i];
        if replies[i].Fulfilled? && replies[i].ofConversation && |replies[i].events| == RUN_EVENT_BATCH_LIMIT {
          AddPendingRun(requests[i].runId);
        }
      }
      assert requests[..|requests|] == requests && replies[..|replies|] == replies;
    }

    /** flushRunUpdates behind its first await, when the conversation is still the active one. */
    method ApplyUpdates(requests: seq<Request>, replies: seq<Reply>)
      requires |requests| == |replies|
      modifies this
      ensures State() == SettleFlush(old(State()), requests, replies)
    {
      hide NoteReplies, EventsOf, Merge, Advance, PendFullPages;
      var nextEvents := NoteSettledUpdates(requests, replies);
      if nextEvents != [] {
        runEvents := MergeLocalRunEvents(runEvents, nextEvents, RUN_EVENT_LIMIT);
        UpdateRunEventCursors(nextEvents);
        received := received + nextEvents;
      }
      AddFullPages(requests, replies);
    }

    method FinishFlush()
      modifies this
      ensures State() == EndFlush(old(State()))
    {
      isRunSyncing := false;
      if pendingRunIds != [] {
        ScheduleRunSync();
      }
    }

    method RefreshActiveConversation(nextEvents: seq<RunEvent>)
      modifies this
      ensures State() == Refresh(old(State()), nextEvents)
    {
      hide Advance;
      hasConversation := true;
      runEvents := LastOnes(nextEvents, RUN_EVENT_LIMIT);
      runEventCursors := map[];
      UpdateRunEventCursors(nextEvents);
      baseCursors, baseEvents, received := runEventCursors, runEvents, [];
      if pendingRunIds != [] {
        ScheduleRunSync();
      }
    }

    method ClearConversationState()
      modifies this
      ensures State() == Clear(old(State()))
    {
      hasConversation, timerSet := false, false;
      runEvents, runEventCursors, pendingRunIds, retryAttempts := [], map[], [], map[];
      baseCursors, baseEvents, received := map[], [], [];
    }
  }
}
