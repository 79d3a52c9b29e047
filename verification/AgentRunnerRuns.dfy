/** What becomes of each submit over a run: who is refused, who is aborted, and what a submit publishes and returns,
    as told by the events that concern it. */
module AgentRunnerRuns {
  import opened AgentRunner

  /** A run with its events. */
  ghost predicate TakesAll(run: seq<RunnerState>, events: seq<Event>) {
    && |run| == |events| + 1 && run[0] == InitialState()
    && forall i | 0 <= i < |events| :: Enabled(run[i], events[i]) && run[i + 1] == Next(run[i], events[i])
  }

  lemma IsARun(run: seq<RunnerState>, events: seq<Event>)
    requires TakesAll(run, events)
    ensures IsRun(run)
  {
    hide Next, Enabled;
    forall i | 0 <= i < |run| - 1
      ensures Follows(run[i], run[i + 1])
    {
      assert Enabled(run[i], events[i]) && run[i + 1] == Next(run[i], events[i]);
    }
  }

  // ----- the story of a submit

  /** What happens to a submit, and whether it had been aborted by then. */
  datatype Happening =
    | Publishes(ok: bool, aborted: bool)
    | Works(result: WorkResult, aborted: bool)

  ghost function Story(run: seq<RunnerState>, events: seq<Event>, n: nat, i: SubmitId): seq<Happening>
    requires |run| == |events| + 1 && n < |run|
  {
    if n == 0 then []
    else
      var before, aborted := Story(run, events, n - 1, i), i in run[n - 1].aborted;
      match events[n - 1]
      case Published(submit, ok) => if submit == i then before + [Publishes(ok, aborted)] else before
      case WorkEnds(submit, result) => if submit == i then before + [Works(result, aborted)] else before
      case _ => before
  }

  /** The event of a submit whose work has thrown, or whose event for a normal end could not be published. */
  function Failure(aborted: bool): Lifecycle {
    if aborted then Cancelled else GenerationFailed
  }

  function NormalEnd(result: WorkResult): Lifecycle {
    if result == Finished then Completed else ActionRequired
  }

  /** The submit's start has been published and its work has ended. */
  predicate HasWorked(story: seq<Happening>) {
    |story| >= 2 && story[0].Publishes? && story[0].ok && story[1].Works?
  }

  /** Where a submit that was not refused is, by its story. */
  function PhaseTold(story: seq<Happening>): Phase {
    if story == [] then Starting
    else if |story| == 1 then (if story[0].Publishes? && !story[0].ok then StartLost else Running)
    else if !HasWorked(story) then Refused
    else if story[1].result == WorkThrew then
      if |story| == 2 then Recovering(Failure(story[1].aborted))
      else Ended(story[2].Publishes? && story[2].ok && story[1].aborted)
    else if |story| == 2 then Reporting(NormalEnd(story[1].result))
    else if story[2].Publishes? && story[2].ok then Ended(true)
    else if |story| == 3 then Recovering(Failure(story[2].aborted))
    else Ended(story[3].Publishes? && story[3].ok && story[2].aborted)
  }

  /** What it has published. */
  function PublishedTold(story: seq<Happening>): seq<Lifecycle> {
    if |story| == 0 || !story[0].Publishes? || !story[0].ok then []
    else if !HasWorked(story) || |story| == 2 then [Started]
    else if story[1].result == WorkThrew then
      if story[2].Publishes? && story[2].ok then [Started, Failure(story[1].aborted)] else [Started]
    else if story[2].Publishes? && story[2].ok then [Started, NormalEnd(story[1].result)]
    else if |story| == 4 && story[3].Publishes? && story[3].ok then [Started, Failure(story[2].aborted)]
    else [Started]
  }

  /** A story as the phases allow it. */
  predicate Told(submit: Submit, story: seq<Happening>) {
    && submit.phase == PhaseTold(story) && submit.published == PublishedTold(story)
    && (|story| > 0 ==> story[0].Publishes?)
    && (|story| > 1 ==> HasWorked(story))
    && (|story| > 2 ==> story[2].Publishes?)
    && (|story| > 3 ==> story[3].Publishes?)
    && |story| <= 4
  }

  lemma OwnEventIsTold(s: RunnerState, event: Event, i: SubmitId, story: seq<Happening>)
    requires Enabled(s, event) && i < |s.submits| && Told(s.submits[i], story)
    requires (event.Published? || event.WorkEnds?) && event.submit == i
    ensures var happening := if event.Published? then Publishes(event.ok, i in s.aborted)
                             else Works(event.result, i in s.aborted);
            Told(Next(s, event).submits[i], story + [happening])
  {
  }

  predicate Concerns(event: Event, i: SubmitId) {
    (event.Published? || event.WorkEnds?) && event.submit == i
  }

  /** Other events leave a submit alone, and a new one is behind all others. */
  lemma OthersLeaveSubmit(s: RunnerState, event: Event, i: SubmitId)
    requires Enabled(s, event) && !Concerns(event, i)
    ensures i < |s.submits| ==> i < |Next(s, event).submits| && Next(s, event).submits[i] == s.submits[i]
    ensures |s.submits| <= i < |Next(s, event).submits| ==>
              && event.Begin? && i == |s.submits|
              && Next(s, event).submits[i] ==
                 Submit(event.generationId, if event.generationId in s.activeRuns then Refused else Starting, [])
  {
  }

  lemma ConcernedIsThere(s: RunnerState, event: Event, i: SubmitId)
    requires Enabled(s, event) && Concerns(event, i)
    ensures i < |s.submits| && s.submits[i].phase != Refused && |Next(s, event).submits| == |s.submits|
  {
  }

  lemma NobodyAtFirst(run: seq<RunnerState>, events: seq<Event>)
    requires TakesAll(run, events)
    ensures run[0].submits == [] && run[0].aborted == {}
  {
  }

  lemma NewIsTold(generationId: GenerationId)
    ensures Told(Submit(generationId, Starting, []), [])
  {
  }

  /** In every run the phase of a submit, what it has published and whether it has returned normally follow from its
      story: from which publications went through, from how its work ended, and from whether it had been aborted when
      its work threw or its event could not be published. */
  lemma {:induction false} StoryTells(run: seq<RunnerState>, events: seq<Event>, n: nat, i: SubmitId)
    requires TakesAll(run, events) && n < |run|
    ensures i >= |run[n].submits| ==> Story(run, events, n, i) == []
    ensures i < |run[n].submits| ==>
              if run[n].submits[i].phase == Refused
              then Story(run, events, n, i) == [] && run[n].submits[i].published == []
              else Told(run[n].submits[i], Story(run, events, n, i))
    decreases n
  {
    hide Next, Enabled, Told, InitialState;
    if n == 0 {
      NobodyAtFirst(run, events);
    } else {
      StoryTells(run, events, n - 1, i);
      var s, event := run[n - 1], events[n - 1];
      if Concerns(event, i) {
        ConcernedIsThere(s, event, i);
        OwnEventIsTold(s, event, i, Story(run, events, n - 1, i));
        ToldIsNotRefused(run[n].submits[i], Story(run, events, n, i));
      } else {
        OthersLeaveSubmit(s, event, i);
        if i < |run[n].submits| {
          NewIsTold(run[n].submits[i].generationId);
        }
      }
    }
  }

  lemma ToldIsNotRefused(submit: Submit, story: seq<Happening>)
    requires Told(submit, story)
    ensures submit.phase != Refused
  {
  }

  // ----- refused and aborted submits

  /** Some submit of the generation is under way, or has failed to publish its start. */
  predicate IsActive(s: RunnerState, generationId: GenerationId) {
    exists i | 0 <= i < |s.submits| :: s.submits[i].generationId == generationId && Holds(s.submits[i].phase)
  }

  lemma ActiveIsInMap(run: seq<RunnerState>, events: seq<Event>, n: nat, generationId: GenerationId)
    requires TakesAll(run, events) && n < |run|
    ensures generationId in run[n].activeRuns <==> IsActive(run[n], generationId)
  {
    hide Next, Enabled;
    IsARun(run, events);
    ActiveExactly(run, n, generationId);
  }

  /** A submit is refused, for good, exactly if another one of its generation was active when it began. */
  lemma {:induction false} RefusedExactly(run: seq<RunnerState>, events: seq<Event>, m: nat, n: nat)
    requires TakesAll(run, events) && m < n < |run| && events[m].Begin?
    ensures var i := |run[m].submits|;
            && i < |run[n].submits|
            && run[n].submits[i].generationId == events[m].generationId
            && (run[n].submits[i].phase == Refused <==> IsActive(run[m], events[m].generationId))
    decreases n
  {
    hide Next, Enabled, InitialState, IsActive;
    var i := |run[m].submits|;
    if n == m + 1 {
      ActiveIsInMap(run, events, m, events[m].generationId);
      BeginAdds(run[m], events[m].generationId);
    } else {
      RefusedExactly(run, events, m, n - 1);
      var s, event := run[n - 1], events[n - 1];
      if Concerns(event, i) {
        ConcernedIsThere(s, event, i);
        GoesOnUnrefused(s, event, i);
      } else {
        OthersLeaveSubmit(s, event, i);
      }
    }
  }

  lemma BeginAdds(s: RunnerState, generationId: GenerationId)
    ensures Next(s, Begin(generationId)).submits ==
            s.submits
            + [Submit(generationId, if generationId in s.activeRuns then Refused else Starting, [])]
  {
  }

  lemma GoesOnUnrefused(s: RunnerState, event: Event, i: SubmitId)
    requires Enabled(s, event) && Concerns(event, i)
    ensures i < |s.submits| == |Next(s, event).submits|
    ensures Next(s, event).submits[i].phase != Refused
    ensures Next(s, event).submits[i].generationId == s.submits[i].generationId
  {
  }

  /** The event cancels the submit's generation while the submit is active. */
  predicate CancelsSubmit(s: RunnerState, event: Event, i: SubmitId) {
    event.Cancel? && i < |s.submits| && s.submits[i].generationId == event.generationId && Holds(s.submits[i].phase)
  }

  lemma AbortStep(s: RunnerState, event: Event, i: SubmitId)
    requires ActiveInv(s) && Enabled(s, event)
    ensures i in Next(s, event).aborted <==> i in s.aborted || CancelsSubmit(s, event, i)
  {
  }

  /** A submit is aborted exactly if its generation has been cancelled while the submit was active. */
  lemma {:induction false} AbortedExactly(run: seq<RunnerState>, events: seq<Event>, n: nat, i: SubmitId)
    requires TakesAll(run, events) && n < |run|
    ensures i in run[n].aborted <==> exists m :: 0 <= m < n && CancelsSubmit(run[m], events[m], i)
    decreases n
  {
    hide Next, Enabled, CancelsSubmit, InitialState, ActiveInv, HistoryInv;
    if n == 0 {
      NobodyAtFirst(run, events);
    } else {
      AbortedExactly(run, events, n - 1, i);
      IsARun(run, events);
      InvHolds(run, n - 1);
      AbortStep(run[n - 1], events[n - 1], i);
    }
  }
}
