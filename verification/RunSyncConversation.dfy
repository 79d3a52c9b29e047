/** What a client shows and asks for when its conversation is fetched, and when there is none. */
module RunSyncConversation {
  import opened Wrappers
  import opened RunEventWindow
  import opened RunSync
  import opened RunSyncAtRest

  /** Without a conversation the client shows nothing, knows no cursors and asks for nothing. */
  predicate Bare(w: World) {
    && w.phase.Idle? && w.client.runEvents == [] && w.client.runEventCursors == map[] && w.client.received == []
    && !w.client.isRunSyncing
  }

  lemma BareStep(w: World, event: Event)
    requires Inv(w) && Enabled(w, event) && (w.client.hasConversation || Bare(w))
    ensures Next(w, event).client.hasConversation || Bare(Next(w, event))
    ensures Next(w, event).client.hasConversation <==> event.Refreshed? || (w.client.hasConversation && !event.Cleared?)
  {
    hide RunInv, RequestsInv, RetryInv, WindowInv, NoteReplies, EventsOf, PendFullPages, Merge, Advance, Answers;
    if event.RepliesArrive? {
      NoteRepliesFrame(w.client, w.phase.requests, event.replies);
    }
  }

  lemma NothingAtFirst(run: seq<World>, events: seq<Event>)
    requires IsTrace(run, events)
    ensures !run[0].client.hasConversation && Bare(run[0])
  {
  }

  /** In every run a conversation is active exactly if it has been fetched and not left since; while none is, the window
      is empty, no cursor is known and no request is on its way. */
  lemma {:induction false} ConversationExactly(run: seq<World>, events: seq<Event>, i: nat)
    requires IsTrace(run, events) && i < |run|
    ensures run[i].client.hasConversation <==>
            exists j :: 0 <= j < i && events[j].Refreshed? && forall k | j < k < i :: !events[k].Cleared?
    ensures !run[i].client.hasConversation ==> Bare(run[i])
    decreases i
  {
    hide Inv, Next, Enabled, InitialWorld, Bare;
    if i == 0 {
      NothingAtFirst(run, events);
    } else {
      var last := i - 1;
      ConversationExactly(run, events, last);
      TraceIsRun(run, events);
      InvHolds(run, last);
      BareStep(run[last], events[last]);
      if run[last].client.hasConversation && !events[last].Cleared? {
        var j :| 0 <= j < last && events[j].Refreshed? && forall k | j < k < last :: !events[k].Cleared?;
        assert forall k | j < k < i :: !events[k].Cleared?;
      }
    }
  }

  lemma LeftStep(w: World, event: Event, runId: RunId)
    requires Enabled(w, event) && !event.Refreshed?
    requires !w.client.hasConversation && Bare(w) && w.client.retryAttempts == map[]
    ensures runId in Next(w, event).client.pendingRunIds <==>
            (runId in w.client.pendingRunIds && !event.Cleared?) || event == StateEvent(runId)
    ensures Next(w, event).client.retryAttempts == map[] && !Next(w, event).client.hasConversation
  {
  }

  lemma LeavingForgets(w: World, runId: RunId)
    requires Enabled(w, Cleared)
    ensures var s' := Next(w, Cleared).client;
            && runId !in s'.pendingRunIds && s'.retryAttempts == map[] && !s'.timerSet && !s'.hasConversation
  {
  }

  /** Leaving a conversation forgets what was pending and what had failed: until one is fetched, a run is pending
      exactly if it has been announced since. */
  lemma {:induction false} LeftConversationIsForgotten(run: seq<World>, events: seq<Event>, i: nat, j: nat,
                                                       runId: RunId)
    requires IsTrace(run, events) && i < j < |run| && events[i] == Cleared
    requires forall k | i < k < j :: !events[k].Refreshed? && !events[k].Cleared?
    ensures runId in run[j].client.pendingRunIds <==> exists k :: i < k < j && events[k] == StateEvent(runId)
    ensures run[j].client.retryAttempts == map[] && !run[j].client.hasConversation
    decreases j
  {
    hide Next, Enabled, InitialWorld, Bare;
    if j == i + 1 {
      LeavingForgets(run[i], runId);
    } else {
      LeftConversationIsForgotten(run, events, i, j - 1, runId);
      ConversationExactly(run, events, j - 1);
      LeftStep(run[j - 1], events[j - 1], runId);
    }
  }

  // ----- where a fetched conversation starts

  lemma {:induction false} AdvanceIsGreatest(events: seq<RunEvent>, runId: RunId)
    requires forall i | 0 <= i < |events| :: events[i].id >= 1
    ensures var cursor := Cursor(Advance(map[], events), runId);
            && (cursor.None? <==> forall i | 0 <= i < |events| :: events[i].runId != runId)
            && (forall i | 0 <= i < |events| && events[i].runId == runId ::
                  cursor.Some? && events[i].id <= cursor.value)
    decreases |events|
  {
    if events != [] {
      var n := |events| - 1;
      AdvanceIsGreatest(events[..n], runId);
      assert forall i | 0 <= i < n :: events[..n][i] == events[i];
    }
  }

  /** A fetched conversation is shown with its last 1000 events, and each run's cursor stands at the greatest of its
      fetched events, so that what is asked for next lies behind all of them; a run without any is asked for from its
      beginning. */
  lemma FetchedConversationStarts(w: World, events: seq<RunEvent>, runId: RunId)
    requires Inv(w) && Enabled(w, Refreshed(events))
    ensures var s' := Next(w, Refreshed(events)).client;
            var cursor := Cursor(s'.runEventCursors, runId);
            && s'.hasConversation && s'.received == []
            && s'.runEvents == (if |events| <= 1000 then events else events[|events| - 1000..])
            && (cursor.None? <==> forall i | 0 <= i < |events| :: events[i].runId != runId)
            && (forall i | 0 <= i < |events| && events[i].runId == runId :: events[i].id <= cursor.value)
            && (cursor.Some? ==>
                  exists i :: 0 <= i < |events| && events[i].runId == runId && events[i].id == cursor.value)
            && s'.pendingRunIds == w.client.pendingRunIds
            && (s'.pendingRunIds != [] ==> s'.timerSet)
  {
    hide Advance, RunInv, RetryInv, WindowInv, RequestsInv;
    forall i | 0 <= i < |events|
      ensures events[i].id >= 1
    {
      LogIsOrdered(w, events[i].runId);
    }
    AdvanceIsGreatest(events, runId);
    AdvanceFromNothing(events, runId);
  }
}
