/** The runner of agent generations in one process: submits that run side by side, and the map of active runs.

    Each step runs a submit from one await to the next. Executing a generation is one await that ends in any way. */
module AgentRunner {
  type GenerationId = nat
  type SubmitId = nat

  datatype Lifecycle = Started | ActionRequired | Completed | Cancelled | GenerationFailed

  /** Where a submit is. Ended means that its finally clause has run. */
  datatype Phase =
    | Refused                           // the generation is already running
    | Starting                          // the started event is being published
    | StartLost                         // publishing it threw
    | Running
    | Reporting(kind: Lifecycle)        // the event of a generation that ended normally is being published
    | Recovering(kind: Lifecycle)       // the event of the catch clause is being published
    | Ended(returned: bool)

  datatype Submit = Submit(generationId: GenerationId, phase: Phase, published: seq<Lifecycle>)

  datatype RunnerState = RunnerState(
    submits: seq<Submit>,
    activeRuns: map<GenerationId, SubmitId>,
    aborted: set<SubmitId>
  )

  datatype WorkResult = Finished | Interrupted | WorkThrew

  datatype Event =
    | Begin(generationId: GenerationId)
    | Cancel(generationId: GenerationId)
    | Published(submit: SubmitId, ok: bool)
    | WorkEnds(submit: SubmitId, result: WorkResult)

  function InitialState(): RunnerState {
    RunnerState([], map[], {})
  }

  predicate Publishing(phase: Phase) {
    phase.Starting? || phase.Reporting? || phase.Recovering?
  }

  predicate Enabled(s: RunnerState, event: Event) {
    match event
    case Begin(_) => true
    case Cancel(_) => true
    case Published(i, _) => i < |s.submits| && Publishing(s.submits[i].phase)
    case WorkEnds(i, _) => i < |s.submits| && s.submits[i].phase == Running
  }

  /** The catch clause looks at the abort signal once. */
  function Recovery(s: RunnerState, i: SubmitId): Phase {
    Recovering(if i in s.aborted then Cancelled else GenerationFailed)
  }

  function End(s: RunnerState, i: SubmitId, submit: Submit): RunnerState
    requires i < |s.submits|
  {
    s.(submits := s.submits[i := submit], activeRuns := s.activeRuns - {submit.generationId})
  }

  function Publish(submit: Submit, kind: Lifecycle, ok: bool): Submit {
    if ok then submit.(published := submit.published + [kind]) else submit
  }

  function Next(s: RunnerState, event: Event): RunnerState
    requires Enabled(s, event)
  {
    match event
    case Begin(generationId) =>
      if generationId in s.activeRuns then s.(submits := s.submits + [Submit(generationId, Refused, [])])
      else
        s.(submits := s.submits + [Submit(generationId, Starting, [])],
           activeRuns := s.activeRuns[generationId := |s.submits|])
    case Cancel(generationId) =>
      if generationId in s.activeRuns then s.(aborted := s.aborted + {s.activeRuns[generationId]}) else s
    case Published(i, ok) =>
      var submit := s.submits[i];
      (match submit.phase
       case Starting =>
         s.(submits := s.submits[i := Publish(submit, Started, ok).(phase := if ok then Running else StartLost)])
       case Reporting(kind) =>
         if ok then End(s, i, Publish(submit, kind, true).(phase := Ended(true)))
         else s.(submits := s.submits[i := submit.(phase := Recovery(s, i))])
       case Recovering(kind) => End(s, i, Publish(submit, kind, ok).(phase := Ended(ok && kind == Cancelled)))
       case _ => s)
    case WorkEnds(i, result) =>
      var phase := match result
        case Finished => Reporting(Completed)
        case Interrupted => Reporting(ActionRequired)
        case WorkThrew => Recovery(s, i);
      s.(submits := s.submits[i := s.submits[i].(phase := phase)])
  }

  ghost predicate Follows(s: RunnerState, s': RunnerState) {
    exists event :: Enabled(s, event) && s' == Next(s, event)
  }

  ghost predicate IsRun(run: seq<RunnerState>) {
    run != [] && run[0] == InitialState() && forall i | 0 <= i < |run| - 1 :: Follows(run[i], run[i + 1])
  }

  // ----- what every step keeps

  /** The submit is under way. */
  predicate Live(phase: Phase) {
    phase.Starting? || phase.Running? || phase.Reporting? || phase.Recovering?
  }

  /** The submit keeps its entry among the active runs. */
  predicate Holds(phase: Phase) {
    Live(phase) || phase.StartLost?
  }

  /** The map of active runs is exact: its entries are the submits that hold one. */
  ghost predicate ActiveInv(s: RunnerState) {
    && (forall g | g in s.activeRuns ::
          && s.activeRuns[g] < |s.submits|
          && s.submits[s.activeRuns[g]].generationId == g && Holds(s.submits[s.activeRuns[g]].phase))
    && (forall i | 0 <= i < |s.submits| && Holds(s.submits[i].phase) ::
          s.submits[i].generationId in s.activeRuns && s.activeRuns[s.submits[i].generationId] == i)
  }

  /** What a submit has published tells where it is. */
  predicate HistoryFits(submit: Submit, aborted: bool) {
    match submit.phase
    case Refused => submit.published == []
    case Starting => submit.published == []
    case StartLost => submit.published == []
    case Running => submit.published == [Started]
    case Reporting(kind) => submit.published == [Started] && (kind == Completed || kind == ActionRequired)
    case Recovering(kind) =>
      submit.published == [Started] && (kind == GenerationFailed || (kind == Cancelled && aborted))
    case Ended(returned) =>
      if returned then
        exists kind :: submit.published == [Started, kind]
                       && (kind == Completed || kind == ActionRequired || (kind == Cancelled && aborted))
      else submit.published == [Started] || submit.published == [Started, GenerationFailed]
  }

  ghost predicate HistoryInv(s: RunnerState) {
    forall i | 0 <= i < |s.submits| :: HistoryFits(s.submits[i], i in s.aborted)
  }

  /** A submit that goes on keeps its entry. */
  lemma GoingOnKeepsActive(s: RunnerState, i: SubmitId, submit: Submit)
    requires ActiveInv(s) && i < |s.submits| && Holds(s.submits[i].phase) && Holds(submit.phase)
    requires submit.generationId == s.submits[i].generationId
    ensures ActiveInv(s.(submits := s.submits[i := submit]))
  {
    hide Holds;
  }

  /** A submit that ends removes its own entry. */
  lemma EndingKeepsActive(s: RunnerState, i: SubmitId, submit: Submit)
    requires ActiveInv(s) && i < |s.submits| && Holds(s.submits[i].phase) && submit.phase.Ended?
    requires submit.generationId == s.submits[i].generationId
    ensures ActiveInv(End(s, i, submit))
  {
  }

  lemma BeginKeepsActive(s: RunnerState, generationId: GenerationId)
    requires ActiveInv(s)
    ensures ActiveInv(Next(s, Begin(generationId)))
  {
  }

  lemma StepKeepsActive(s: RunnerState, event: Event)
    requires ActiveInv(s) && Enabled(s, event)
    ensures ActiveInv(Next(s, event))
  {
    match event
    case Begin(generationId) => BeginKeepsActive(s, generationId);
    case Cancel(_) =>
    case WorkEnds(i, _) =>
      hide ActiveInv;
      GoingOnKeepsActive(s, i, Next(s, event).submits[i]);
    case Published(i, ok) =>
      hide ActiveInv;
      var submit := s.submits[i];
      match submit.phase {
        case Starting => GoingOnKeepsActive(s, i, Next(s, event).submits[i]);
        case Reporting(kind) =>
          if ok {
            EndingKeepsActive(s, i, Publish(submit, kind, true).(phase := Ended(true)));
          } else {
            GoingOnKeepsActive(s, i, submit.(phase := Recovery(s, i)));
          }
        case Recovering(kind) =>
          EndingKeepsActive(s, i, Publish(submit, kind, ok).(phase := Ended(ok && kind == Cancelled)));
      }
  }

  lemma StepKeepsHistory(s: RunnerState, event: Event)
    requires HistoryInv(s) && Enabled(s, event)
    ensures HistoryInv(Next(s, event))
  {
    hide HistoryFits;
    var s' := Next(s, event);
    forall i | 0 <= i < |s'.submits|
      ensures HistoryFits(s'.submits[i], i in s'.aborted)
    {
      if i < |s.submits| {
        SubmitKeepsHistory(s, event, i);
      } else {
        NewFits(s'.submits[i], i in s'.aborted);
      }
    }
  }

  lemma NewFits(submit: Submit, aborted: bool)
    requires submit.published == [] && (submit.phase == Refused || submit.phase == Starting)
    ensures HistoryFits(submit, aborted)
  {
  }

  lemma SubmitKeepsHistory(s: RunnerState, event: Event, i: SubmitId)
    requires i < |s.submits| && HistoryFits(s.submits[i], i in s.aborted) && Enabled(s, event)
    ensures HistoryFits(Next(s, event).submits[i], i in Next(s, event).aborted)
  {
    var submit, submit' := s.submits[i], Next(s, event).submits[i];
    if event.Published? && event.submit == i && submit.published == [Started] && !submit.phase.Starting? && event.ok {
      assert submit'.published == [Started, submit.phase.kind];
    }
  }

  lemma {:induction false} InvHolds(run: seq<RunnerState>, i: nat)
    requires IsRun(run) && i < |run|
    ensures ActiveInv(run[i]) && HistoryInv(run[i])
  {
    hide ActiveInv, HistoryInv, Next, Enabled;
    if i == 0 {
      InitialInv();
    } else {
      InvHolds(run, i - 1);
      assert Follows(run[i - 1], run[i - 1 + 1]);
      var event :| Enabled(run[i - 1], event) && run[i] == Next(run[i - 1], event);
      StepKeepsActive(run[i - 1], event);
      StepKeepsHistory(run[i - 1], event);
    }
  }

  lemma InitialInv()
    ensures ActiveInv(InitialState()) && HistoryInv(InitialState())
  {
  }

  // ----- what holds in every run

  /** A generation is run by at most one submit at a time. */
  lemma OneSubmitPerGeneration(run: seq<RunnerState>, n: nat, i: SubmitId, j: SubmitId)
    requires IsRun(run) && n < |run| && i < |run[n].submits| && j < |run[n].submits|
    requires Live(run[n].submits[i].phase) && Live(run[n].submits[j].phase)
    requires run[n].submits[i].generationId == run[n].submits[j].generationId
    ensures i == j
  {
    InvHolds(run, n);
  }

  /** A submit is refused, and a cancel answered with true, exactly when a submit of the generation is under way or has
      failed to publish its start. */
  lemma ActiveExactly(run: seq<RunnerState>, n: nat, generationId: GenerationId)
    requires IsRun(run) && n < |run|
    ensures generationId in run[n].activeRuns <==>
            exists i :: 0 <= i < |run[n].submits| && run[n].submits[i].generationId == generationId
                        && (Live(run[n].submits[i].phase) || run[n].submits[i].phase == StartLost)
  {
    InvHolds(run, n);
    var s := run[n];
    if generationId in s.activeRuns {
      assert s.submits[s.activeRuns[generationId]].generationId == generationId;
    }
  }

  lemma LostStays(s: RunnerState, event: Event, i: SubmitId)
    requires Enabled(s, event) && i < |s.submits| && s.submits[i].phase == StartLost
    ensures i < |Next(s, event).submits| && Next(s, event).submits[i] == s.submits[i]
  {
  }

  lemma LostRefuses(s: RunnerState, i: SubmitId)
    requires ActiveInv(s) && i < |s.submits| && s.submits[i].phase == StartLost
    ensures s.submits[i].generationId in s.activeRuns
    ensures Next(s, Begin(s.submits[i].generationId)).submits ==
            s.submits + [Submit(s.submits[i].generationId, Refused, [])]
  {
  }

  /** A lost start is never forgotten: as long as the process lives, the generation counts as running. */
  lemma {:induction false} LostStartIsKept(run: seq<RunnerState>, m: nat, n: nat, i: SubmitId)
    requires IsRun(run) && m <= n < |run| && i < |run[m].submits| && run[m].submits[i].phase == StartLost
    ensures i < |run[n].submits| && run[n].submits[i] == run[m].submits[i]
    ensures run[m].submits[i].generationId in run[n].activeRuns
    ensures Next(run[n], Begin(run[m].submits[i].generationId)).submits ==
            run[n].submits + [Submit(run[m].submits[i].generationId, Refused, [])]
    decreases n
  {
    hide ActiveInv, HistoryInv, Next, Enabled, InitialState;
    if m < n {
      LostStartIsKept(run, m, n - 1, i);
      assert Follows(run[n - 1], run[n - 1 + 1]);
      var event :| Enabled(run[n - 1], event) && run[n] == Next(run[n - 1], event);
      LostStays(run[n - 1], event, i);
    }
    InvHolds(run, n);
    LostRefuses(run[n], i);
  }

  /** A run that reaches a lost start: one submit, whose started event cannot be published. */
  lemma StartCanBeLost(generationId: GenerationId)
    ensures exists run: seq<RunnerState> ::
              IsRun(run) && |run| == 3 && run[2].submits == [Submit(generationId, StartLost, [])]
  {
    var s0 := InitialState();
    var s1 := Next(s0, Begin(generationId));
    var s2 := Next(s1, Published(0, false));
    assert Follows(s0, s1) && Follows(s1, s2);
    var run := [s0, s1, s2];
    assert s1.submits == [Submit(generationId, Starting, [])];
    assert forall i | 0 <= i < 2 :: Follows(run[i], run[i + 1]);
    assert IsRun(run) && run[2].submits == [Submit(generationId, StartLost, [])];
  }

  /** A submit publishes its start first and then at most one event for its end; when it returns normally it has
      published both, and it returns from a cancellation only after a cancel. */
  lemma EventsInOrder(run: seq<RunnerState>, n: nat, i: SubmitId)
    requires IsRun(run) && n < |run| && i < |run[n].submits|
    ensures var submit := run[n].submits[i];
            && |submit.published| <= 2
            && (submit.published != [] ==> submit.published[0] == Started)
            && (|submit.published| == 2 ==> submit.published[1] != Started && submit.phase.Ended?)
            && (submit.phase == Ended(true) ==> |submit.published| == 2 && submit.published[1] != GenerationFailed)
            && (Cancelled in submit.published ==> i in run[n].aborted && submit.phase == Ended(true))
  {
    InvHolds(run, n);
    assert HistoryFits(run[n].submits[i], i in run[n].aborted);
  }

  // ----- the object

  /** The closure of createAgentRunner. */
  class Runner {
    var activeRuns: map<GenerationId, SubmitId>
    var aborted: set<SubmitId>
    ghost var submits: seq<Submit>
    var submitCount: nat

    ghost function State(): RunnerState
      reads this
    {
      RunnerState(submits, activeRuns, aborted)
    }

    ghost predicate Valid()
      reads this
    {
      submitCount == |submits| && ActiveInv(State())
    }

    constructor ()
      ensures Valid() && State() == InitialState()
    {
      activeRuns, aborted, submits, submitCount := map[], {}, [], 0;
    }

    /** submit up to its first await. */
    method StartSubmit(generationId: GenerationId) returns (accepted: bool)
      requires Valid()
      modifies this
      ensures Valid() && State() == Next(old(State()), Begin(generationId))
      ensures accepted <==> generationId !in old(activeRuns)
    {
      hide ActiveInv;
      StepKeepsActive(State(), Begin(generationId));
      if generationId in activeRuns {
        submits, submitCount := submits + [Submit(generationId, Refused, [])], submitCount + 1;
        return false;
      }
      activeRuns := activeRuns[generationId := submitCount];
      submits, submitCount := submits + [Submit(generationId, Starting, [])], submitCount + 1;
      return true;
    }

    method CancelGeneration(generationId: GenerationId) returns (found: bool)
      requires Valid()
      modifies this
      ensures Valid() && State() == Next(old(State()), Cancel(generationId))
      ensures found <==> generationId in old(activeRuns)
    {
      hide ActiveInv;
      StepKeepsActive(State(), Cancel(generationId));
      if generationId !in activeRuns {
        return false;
      }
      aborted := aborted + {activeRuns[generationId]};
      return true;
    }
  }
}
