/** The events of a conversation, grouped by their run. */
module RunGroups {
  import opened Wrappers
  import ActivityMerge

  type RunId = nat
  type MessageId = nat
  type ProcessRow = ActivityMerge.ProcessRow

  /** What an event contributes to its group. An empty message id counts as a missing one. */
  datatype EventInfo =
    | RunStarted(userMessageId: Option<MessageId>)
    | MessageCompleted(messageId: Option<MessageId>)
    | OtherInfo(content: nat)

  datatype RunEvent = RunEvent(id: int, runId: RunId, info: EventInfo)

  datatype RunGroup = RunGroup(
    runId: RunId,
    userMessageId: Option<MessageId>,
    assistantMessageId: Option<MessageId>,
    hasPersistedAssistantMessage: bool,
    processRows: seq<ProcessRow>,
    references: Option<nat>
  )

  /** The rows and the references read from the payloads of a run's events. */
  datatype Projection = Projection(processRows: seq<ProcessRow>, references: Option<nat>)

  predicate HasDeltaMessageRows(group: RunGroup) {
    exists i | 0 <= i < |group.processRows| :: group.processRows[i].StreamMessage?
  }

  // ----- sorting

  /** Insertion behind the elements with the same key. */
  function Insert<T>(sorted: seq<T>, item: T, key: T -> int): seq<T> {
    if sorted == [] || key(sorted[|sorted| - 1]) <= key(item) then sorted + [item]
    else Insert(sorted[..|sorted| - 1], item, key) + [sorted[|sorted| - 1]]
  }

  /** The stable sort by a numeric key. */
  function SortBy<T>(items: seq<T>, key: T -> int): seq<T> {
    if items == [] then [] else Insert(SortBy(items[..|items| - 1], key), items[|items| - 1], key)
  }

  lemma {:induction false} InsertKeeps<T>(sorted: seq<T>, item: T, key: T -> int)
    ensures multiset(Insert(sorted, item, key)) == multiset(sorted) + multiset{item}
  {
    if sorted != [] && key(sorted[|sorted| - 1]) > key(item) {
      var n := |sorted| - 1;
      assert sorted == sorted[..n] + [sorted[n]];
      InsertKeeps(sorted[..n], item, key);
    }
  }

  ghost predicate Sorted<T(!new)>(items: seq<T>, key: T -> int) {
    forall i, j | 0 <= i < j < |items| :: key(items[i]) <= key(items[j])
  }

  lemma {:induction false} InsertBelow<T>(sorted: seq<T>, item: T, key: T -> int, bound: int)
    requires key(item) <= bound && forall i | 0 <= i < |sorted| :: key(sorted[i]) <= bound
    ensures forall i | 0 <= i < |Insert(sorted, item, key)| :: key(Insert(sorted, item, key)[i]) <= bound
  {
    if sorted != [] && key(sorted[|sorted| - 1]) > key(item) {
      InsertBelow(sorted[..|sorted| - 1], item, key, bound);
    }
  }

  lemma {:induction false} InsertSorts<T(!new)>(sorted: seq<T>, item: T, key: T -> int)
    requires Sorted(sorted, key)
    ensures Sorted(Insert(sorted, item, key), key)
  {
    if sorted != [] && key(sorted[|sorted| - 1]) > key(item) {
      var n := |sorted| - 1;
      InsertSorts(sorted[..n], item, key);
      InsertBelow(sorted[..n], item, key, key(sorted[n]));
    }
  }

  lemma {:induction false} SortBySorts<T(!new)>(items: seq<T>, key: T -> int)
    ensures multiset(SortBy(items, key)) == multiset(items)
    ensures Sorted(SortBy(items, key), key)
  {
    if items != [] {
      var n := |items| - 1;
      assert items == items[..n] + [items[n]];
      SortBySorts(items[..n], key);
      InsertKeeps(SortBy(items[..n], key), items[n], key);
      InsertSorts(SortBy(items[..n], key), items[n], key);
    }
  }

  // ----- grouping

  /** The run ids in the order of their first events. */
  function RunIds(events: seq<RunEvent>): seq<RunId> {
    if events == [] then []
    else
      var before := RunIds(events[..|events| - 1]);
      var runId := events[|events| - 1].runId;
      if runId in before then before else before + [runId]
  }

  function EventsOf(events: seq<RunEvent>, runId: RunId): seq<RunEvent> {
    if events == [] then []
    else
      var n := |events| - 1;
      EventsOf(events[..n], runId) + if events[n].runId == runId then [events[n]] else []
  }

  function SortedEventsOf(events: seq<RunEvent>, runId: RunId): seq<RunEvent> {
    SortBy(EventsOf(events, runId), (event: RunEvent) => event.id)
  }

  function UserMessageId(events: seq<RunEvent>): Option<MessageId> {
    if events == [] then None
    else if events[0].info.RunStarted? && events[0].info.userMessageId.Some? then events[0].info.userMessageId
    else UserMessageId(events[1..])
  }

  function AssistantMessageId(events: seq<RunEvent>): Option<MessageId> {
    if events == [] then None
    else if events[0].info.MessageCompleted? && events[0].info.messageId.Some? then events[0].info.messageId
    else AssistantMessageId(events[1..])
  }

  function GroupOf(events: seq<RunEvent>, runId: RunId, messageIds: set<MessageId>,
                   project: (RunId, seq<RunEvent>) -> Projection): RunGroup
  {
    var sorted := SortedEventsOf(events, runId);
    var assistant := AssistantMessageId(sorted);
    var projection := project(runId, sorted);
    RunGroup(runId, UserMessageId(sorted), assistant, assistant.Some? && assistant.value in messageIds,
             projection.processRows, projection.references)
  }

  const MAX_SAFE_INTEGER: int := 0x1F_FFFF_FFFF_FFFF

  function FirstEventId(events: seq<RunEvent>, runId: RunId): int {
    var own := EventsOf(events, runId);
    if own == [] then MAX_SAFE_INTEGER else own[0].id
  }

  function UnsortedGroups(events: seq<RunEvent>, messageIds: set<MessageId>,
                          project: (RunId, seq<RunEvent>) -> Projection): (groups: seq<RunGroup>)
    ensures |groups| == |RunIds(events)|
    ensures forall i | 0 <= i < |groups| :: groups[i] == GroupOf(events, RunIds(events)[i], messageIds, project)
  {
    var runIds := RunIds(events);
    seq(|runIds|, i requires 0 <= i < |runIds| => GroupOf(events, runIds[i], messageIds, project))
  }

  /** createRunEventGroups as a function of its arguments. */
  function CreateGroups(events: seq<RunEvent>, messageIds: set<MessageId>,
                        project: (RunId, seq<RunEvent>) -> Projection): seq<RunGroup>
  {
    SortBy(UnsortedGroups(events, messageIds, project), (group: RunGroup) => FirstEventId(events, group.runId))
  }

  lemma FileNext(events: seq<RunEvent>, i: nat, runId: RunId)
    requires i < |events|
    ensures EventsOf(events[..i + 1], runId) ==
            EventsOf(events[..i], runId) + if events[i].runId == runId then [events[i]] else []
    ensures RunIds(events[..i + 1]) ==
            if events[i].runId in RunIds(events[..i])
            then RunIds(events[..i])
            else RunIds(events[..i]) + [events[i].runId]
  {
    assert events[..i + 1][..i] == events[..i];
  }

  /** What the map of the runs' events holds after some events. */
  ghost predicate Filed(events: seq<RunEvent>, runIds: seq<RunId>, eventsByRunId: map<RunId, seq<RunEvent>>) {
    && runIds == RunIds(events)
    && (forall runId :: runId in eventsByRunId <==> runId in runIds)
    && (forall runId :: EventsOf(events, runId) == if runId in eventsByRunId then eventsByRunId[runId] else [])
  }

  lemma FiledNext(events: seq<RunEvent>, i: nat, runIds: seq<RunId>, eventsByRunId: map<RunId, seq<RunEvent>>)
    requires i < |events| && Filed(events[..i], runIds, eventsByRunId)
    ensures var runId := events[i].runId;
            var runEvents := if runId in eventsByRunId then eventsByRunId[runId] else [];
            Filed(events[..i + 1], if runId in eventsByRunId then runIds else runIds + [runId],
                  eventsByRunId[runId := runEvents + [events[i]]])
  {
    hide EventsOf, RunIds;
    var runId := events[i].runId;
    FileNext(events, i, runId);
    var runEvents := if runId in eventsByRunId then eventsByRunId[runId] else [];
    var filed := eventsByRunId[runId := runEvents + [events[i]]];
    forall other
      ensures EventsOf(events[..i + 1], other) == if other in filed then filed[other] else []
    {
      FileNext(events, i, other);
    }
  }

  /** The loop that files events under their run, with the map's keys in insertion order. */
  method GroupEvents(events: seq<RunEvent>) returns (runIds: seq<RunId>, eventsByRunId: map<RunId, seq<RunEvent>>)
    ensures runIds == RunIds(events)
    ensures forall runId :: runId in eventsByRunId <==> runId in runIds
    ensures forall runId :: EventsOf(events, runId) == if runId in eventsByRunId then eventsByRunId[runId] else []
  {
    runIds, eventsByRunId := [], map[];
    assert Filed([], runIds, eventsByRunId);
    assert events[..0] == [];
    {
      hide Filed;
      for i := 0 to |events|
        invariant Filed(events[..i], runIds, eventsByRunId)
      {
        FiledNext(events, i, runIds, eventsByRunId);
        var runId := events[i].runId;
        var runEvents := if runId in eventsByRunId then eventsByRunId[runId] else [];
        if runId !in eventsByRunId {
          runIds := runIds + [runId];
        }
        eventsByRunId := eventsByRunId[runId := runEvents + [events[i]]];
      }
      assert events[..|events|] == events;
    }
    assert Filed(events, runIds, eventsByRunId);
  }

  // ----- one group per run

  predicate HasGroup(groups: seq<RunGroup>, runId: RunId) {
    exists k :: 0 <= k < |groups| && groups[k].runId == runId
  }

  predicate HasEvent(events: seq<RunEvent>, runId: RunId) {
    exists i :: 0 <= i < |events| && events[i].runId == runId
  }

  predicate DistinctRuns(groups: seq<RunGroup>) {
    forall i, j | 0 <= i < j < |groups| :: groups[i].runId != groups[j].runId
  }

  lemma {:induction false} RunIdsAreThoseOfEvents(events: seq<RunEvent>)
    ensures forall i, j | 0 <= i < j < |RunIds(events)| :: RunIds(events)[i] != RunIds(events)[j]
    ensures forall runId :: runId in RunIds(events) <==> HasEvent(events, runId)
  {
    if events != [] {
      var n := |events| - 1;
      RunIdsAreThoseOfEvents(events[..n]);
      assert events[n].runId in RunIds(events);
      forall runId | runId in RunIds(events)
        ensures HasEvent(events, runId)
      {
        if runId != events[n].runId {
          var i :| 0 <= i < n && events[..n][i].runId == runId;
          assert events[i].runId == runId;
        }
      }
      forall i | 0 <= i < |events|
        ensures events[i].runId in RunIds(events)
      {
        if i < n {
          assert events[..n][i].runId == events[i].runId;
        }
      }
    }
  }

  lemma {:induction false} DistinctIsByCount(groups: seq<RunGroup>, others: seq<RunGroup>)
    requires multiset(groups) == multiset(others) && DistinctRuns(groups)
    ensures DistinctRuns(others)
  {
    forall i, j | 0 <= i < j < |others|
      ensures others[i].runId != others[j].runId
    {
      if others[i].runId == others[j].runId {
        assert others[i] in multiset(groups) && others[j] in multiset(groups);
        var k :| 0 <= k < |groups| && groups[k] == others[i];
        var l :| 0 <= l < |groups| && groups[l] == others[j];
        TwiceInSeq(others, i, j);
        OnceInSeq(groups, k);
      }
    }
  }

  lemma TwiceInSeq(groups: seq<RunGroup>, i: nat, j: nat)
    requires i < j < |groups| && groups[i] == groups[j]
    ensures multiset(groups)[groups[i]] >= 2
  {
    assert groups == groups[..i] + [groups[i]] + groups[i + 1..j] + [groups[j]] + groups[j + 1..];
  }

  lemma OnceInSeq(groups: seq<RunGroup>, k: nat)
    requires k < |groups| && DistinctRuns(groups)
    ensures multiset(groups)[groups[k]] <= 1
  {
    assert groups == groups[..k] + [groups[k]] + groups[k + 1..];
    assert groups[k] !in groups[..k] && groups[k] !in groups[k + 1..];
  }

  /** There is one group for each run that has an event, and it is made from all the events of this run. */
  lemma OneGroupPerRun(events: seq<RunEvent>, messageIds: set<MessageId>, project: (RunId, seq<RunEvent>) -> Projection)
    ensures var groups := CreateGroups(events, messageIds, project);
            && DistinctRuns(groups)
            && (forall k | 0 <= k < |groups| :: groups[k] == GroupOf(events, groups[k].runId, messageIds, project))
            && (forall runId :: HasGroup(groups, runId) <==> HasEvent(events, runId))
  {
    hide GroupOf, SortBy, EventsOf, DistinctRuns, RunIds;
    var unsorted, groups := UnsortedGroups(events, messageIds, project), CreateGroups(events, messageIds, project);
    SortBySorts(unsorted, (group: RunGroup) => FirstEventId(events, group.runId));
    UnsortedPerRun(events, messageIds, project);
    DistinctIsByCount(unsorted, groups);
    SameGroups(unsorted, groups);
  }

  lemma SameGroups(groups: seq<RunGroup>, others: seq<RunGroup>)
    requires multiset(groups) == multiset(others)
    ensures forall k | 0 <= k < |others| :: others[k] in groups
    ensures forall runId :: HasGroup(groups, runId) <==> HasGroup(others, runId)
  {
    forall k | 0 <= k < |others|
      ensures others[k] in groups
    {
      assert others[k] in multiset(groups);
    }
    forall runId
      ensures HasGroup(groups, runId) <==> HasGroup(others, runId)
    {
      if HasGroup(groups, runId) {
        RunAmongOthers(groups, others, runId);
      } else if HasGroup(others, runId) {
        RunAmongOthers(others, groups, runId);
      }
    }
  }

  lemma RunAmongOthers(groups: seq<RunGroup>, others: seq<RunGroup>, runId: RunId)
    requires multiset(groups) == multiset(others) && HasGroup(groups, runId)
    ensures HasGroup(others, runId)
  {
    var i :| 0 <= i < |groups| && groups[i].runId == runId;
    assert groups[i] in multiset(others);
    var k :| 0 <= k < |others| && others[k] == groups[i];
  }

  lemma UnsortedPerRun(events: seq<RunEvent>, messageIds: set<MessageId>, project: (RunId, seq<RunEvent>) -> Projection)
    ensures var groups := UnsortedGroups(events, messageIds, project);
            && DistinctRuns(groups)
            && (forall k | 0 <= k < |groups| :: groups[k] == GroupOf(events, groups[k].runId, messageIds, project))
            && (forall runId :: HasGroup(groups, runId) <==> HasEvent(events, runId))
  {
    hide GroupOf, RunIds, EventsOf;
    RunIdsAreThoseOfEvents(events);
    GroupRunIds(events, messageIds, project);
    var groups, runIds := UnsortedGroups(events, messageIds, project), RunIds(events);
    assert forall runId | runId in runIds :: exists k :: 0 <= k < |groups| && groups[k].runId == runId;
  }

  lemma GroupRunIds(events: seq<RunEvent>, messageIds: set<MessageId>, project: (RunId, seq<RunEvent>) -> Projection)
    ensures var groups := UnsortedGroups(events, messageIds, project);
            forall i | 0 <= i < |groups| :: groups[i].runId == RunIds(events)[i]
  {
  }

  // ----- the messages that a run names

  predicate NamesUserMessage(event: RunEvent) {
    event.info.RunStarted? && event.info.userMessageId.Some?
  }

  predicate NamesAssistantMessage(event: RunEvent) {
    event.info.MessageCompleted? && event.info.messageId.Some?
  }

  lemma {:induction false} FirstNameCounts(events: seq<RunEvent>)
    ensures UserMessageId(events) == None ==> forall i | 0 <= i < |events| :: !NamesUserMessage(events[i])
    ensures UserMessageId(events).Some? ==>
              exists i :: 0 <= i < |events| && NamesUserMessage(events[i])
                && events[i].info.userMessageId == UserMessageId(events)
                && forall j | 0 <= j < i :: !NamesUserMessage(events[j])
    ensures AssistantMessageId(events) == None ==> forall i | 0 <= i < |events| :: !NamesAssistantMessage(events[i])
    ensures AssistantMessageId(events).Some? ==>
              exists i :: 0 <= i < |events| && NamesAssistantMessage(events[i])
                && events[i].info.messageId == AssistantMessageId(events)
                && forall j | 0 <= j < i :: !NamesAssistantMessage(events[j])
    decreases |events|
  {
    if events != [] {
      var rest := events[1..];
      FirstNameCounts(rest);
      if UserMessageId(rest).Some? && !NamesUserMessage(events[0]) {
        var i :| 0 <= i < |rest| && NamesUserMessage(rest[i]) && rest[i].info.userMessageId == UserMessageId(rest)
                 && forall j | 0 <= j < i :: !NamesUserMessage(rest[j]);
        assert events[i + 1] == rest[i];
      }
      if AssistantMessageId(rest).Some? && !NamesAssistantMessage(events[0]) {
        var i :| 0 <= i < |rest| && NamesAssistantMessage(rest[i])
                 && rest[i].info.messageId == AssistantMessageId(rest)
                 && forall j | 0 <= j < i :: !NamesAssistantMessage(rest[j]);
        assert events[i + 1] == rest[i];
      }
    }
  }

  lemma {:induction false} EventsOfAre(events: seq<RunEvent>, runId: RunId, event: RunEvent)
    ensures event in EventsOf(events, runId) <==> event in events && event.runId == runId
    decreases |events|
  {
    if events != [] {
      var n := |events| - 1;
      assert events == events[..n] + [events[n]];
      EventsOfAre(events[..n], runId, event);
    }
  }

  lemma SortedEventsAre(events: seq<RunEvent>, runId: RunId)
    ensures forall event :: event in SortedEventsOf(events, runId) <==> event in events && event.runId == runId
    ensures var sorted := SortedEventsOf(events, runId);
            forall i, j | 0 <= i < j < |sorted| :: sorted[i].id <= sorted[j].id
  {
    hide EventsOf, SortBy;
    var own := EventsOf(events, runId);
    SortBySorts(own, (event: RunEvent) => event.id);
    forall event
      ensures event in SortedEventsOf(events, runId) <==> event in events && event.runId == runId
    {
      EventsOfAre(events, runId, event);
      assert event in own <==> event in multiset(own);
    }
  }

  /** The earliest of the run's events that name a user message, if there is one. */
  ghost predicate NamesUserFirst(events: seq<RunEvent>, runId: RunId, event: RunEvent) {
    && event in events && event.runId == runId && NamesUserMessage(event)
    && forall other | other in events && other.runId == runId && NamesUserMessage(other) :: event.id <= other.id
  }

  ghost predicate NamesAssistantFirst(events: seq<RunEvent>, runId: RunId, event: RunEvent) {
    && event in events && event.runId == runId && NamesAssistantMessage(event)
    && forall other | other in events && other.runId == runId && NamesAssistantMessage(other) :: event.id <= other.id
  }

  /** A run names the user message of the earliest of its events that name one. */
  lemma EarliestEventNamesUser(events: seq<RunEvent>, runId: RunId, messageIds: set<MessageId>,
                               project: (RunId, seq<RunEvent>) -> Projection)
    ensures var id := GroupOf(events, runId, messageIds, project).userMessageId;
            if id.Some? then exists e :: NamesUserFirst(events, runId, e) && e.info.userMessageId == id
            else forall e | e in events && e.runId == runId :: !NamesUserMessage(e)
  {
    hide SortedEventsOf, UserMessageId, AssistantMessageId;
    var sorted := SortedEventsOf(events, runId);
    SortedEventsAre(events, runId);
    FirstNameCounts(sorted);
    if UserMessageId(sorted).Some? {
      var i :| 0 <= i < |sorted| && NamesUserMessage(sorted[i]) && sorted[i].info.userMessageId == UserMessageId(sorted)
               && forall j | 0 <= j < i :: !NamesUserMessage(sorted[j]);
      assert sorted[i] in sorted;
      assert NamesUserFirst(events, runId, sorted[i]);
    } else {
      assert forall e | e in events && e.runId == runId :: e in sorted;
    }
  }

  /** It names the assistant message of the earliest of its events that name one, and this message is persisted exactly
      if it is listed. */
  lemma EarliestEventNamesAssistant(events: seq<RunEvent>, runId: RunId, messageIds: set<MessageId>,
                                    project: (RunId, seq<RunEvent>) -> Projection)
    ensures var id := GroupOf(events, runId, messageIds, project).assistantMessageId;
            if id.Some? then exists e :: NamesAssistantFirst(events, runId, e) && e.info.messageId == id
            else forall e | e in events && e.runId == runId :: !NamesAssistantMessage(e)
    ensures var group := GroupOf(events, runId, messageIds, project);
            group.hasPersistedAssistantMessage <==>
              group.assistantMessageId.Some? && group.assistantMessageId.value in messageIds
  {
    hide SortedEventsOf, UserMessageId, AssistantMessageId;
    var sorted := SortedEventsOf(events, runId);
    SortedEventsAre(events, runId);
    FirstNameCounts(sorted);
    if AssistantMessageId(sorted).Some? {
      var i :| 0 <= i < |sorted| && NamesAssistantMessage(sorted[i])
               && sorted[i].info.messageId == AssistantMessageId(sorted)
               && forall j | 0 <= j < i :: !NamesAssistantMessage(sorted[j]);
      assert sorted[i] in sorted;
      assert NamesAssistantFirst(events, runId, sorted[i]);
    } else {
      assert forall e | e in events && e.runId == runId :: e in sorted;
    }
  }

  /** The rows and the references of a run are read from its events in the order of their ids, all of them and no
      other. */
  lemma RowsAreReadInOrder(events: seq<RunEvent>, runId: RunId, messageIds: set<MessageId>,
                           project: (RunId, seq<RunEvent>) -> Projection) returns (sorted: seq<RunEvent>)
    ensures multiset(sorted) == multiset(EventsOf(events, runId))
    ensures forall event :: event in sorted <==> event in events && event.runId == runId
    ensures forall i, j | 0 <= i < j < |sorted| :: sorted[i].id <= sorted[j].id
    ensures var group := GroupOf(events, runId, messageIds, project);
            group.processRows == project(runId, sorted).processRows
            && group.references == project(runId, sorted).references
  {
    hide EventsOf, SortBy;
    sorted := SortedEventsOf(events, runId);
    SortedEventsAre(events, runId);
    SortBySorts(EventsOf(events, runId), (event: RunEvent) => event.id);
  }
}
